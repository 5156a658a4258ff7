/**
 The acronym spelling chain of `specVariants`.  Each rule is one `strings.ReplaceAll`; the rules run
 in order over the whole string, so a later rule could in principle spell out a pattern that an
 earlier rule had removed.  The theorems below say that this never happens.
 */
module SpecVariants {
  import opened Text

  // ----- strings.ReplaceAll -----

  function ReplaceAll(s: string, old_: string, new_: string): string
    requires old_ != ""
    decreases |s|
  {
    if |s| < |old_| then s
    else if old_ <= s then new_ + ReplaceAll(s[|old_|..], old_, new_)
    else [s[0]] + ReplaceAll(s[1..], old_, new_)
  }

  lemma {:induction false} ReplaceAbsent(s: string, old_: string, new_: string)
    requires old_ != "" && !Contains(s, old_)
    ensures ReplaceAll(s, old_, new_) == s
    decreases |s|
  {
    if |s| >= |old_| {
      assert !OccursAt(s, 0, old_);
      assert s[0..|old_|] == s[..|old_|];
      forall k: nat ensures !OccursAt(s[1..], k, old_) {
        OccursShift(s[..1], s[1..], k, old_);
        assert s == s[..1] + s[1..];
      }
      ReplaceAbsent(s[1..], old_, new_);
    }
  }

  // ----- replacements that keep the length -----

  lemma {:induction false} ReplaceKeepsLength(s: string, old_: string, new_: string)
    requires old_ != "" && |new_| == |old_|
    ensures |ReplaceAll(s, old_, new_)| == |s|
    decreases |s|
  {
    if |s| >= |old_| {
      if old_ <= s {
        ReplaceKeepsLength(s[|old_|..], old_, new_);
      } else {
        ReplaceKeepsLength(s[1..], old_, new_);
      }
    }
  }

  /** One step of the scan: a block is replaced or one character is copied. */
  lemma ScanStep(s: string, old_: string, new_: string) returns (n: nat)
    requires old_ != "" && |new_| == |old_| <= |s|
    ensures n == if old_ <= s then |old_| else 1
    ensures |ReplaceAll(s[n..], old_, new_)| == |s| - n
    ensures ReplaceAll(s, old_, new_) == (if old_ <= s then new_ else s[..1]) + ReplaceAll(s[n..], old_, new_)
  {
    n := if old_ <= s then |old_| else 1;
    ReplaceKeepsLength(s[n..], old_, new_);
  }

  lemma ReplaceShort(s: string, old_: string, new_: string)
    requires old_ != ""
    ensures |s| < |old_| ==> ReplaceAll(s, old_, new_) == s
  {
  }

  /** A position that a replacement changed lies in a replaced block; and every occurrence of the pattern
      is itself replaced or starts inside a replaced block. */
  lemma {:induction false} InBlock(s: string, old_: string, new_: string, k: nat) returns (b: nat)
    requires old_ != "" && |new_| == |old_| && k < |s| && |ReplaceAll(s, old_, new_)| == |s|
    requires ReplaceAll(s, old_, new_)[k] != s[k] || OccursAt(s, k, old_)
    ensures b <= k < b + |old_|
    ensures OccursAt(s, b, old_) && OccursAt(ReplaceAll(s, old_, new_), b, new_)
    decreases |s|
  {
    hide ReplaceAll, OccursAt;
    ReplaceShort(s, old_, new_);
    OccursFits(s, k, old_);
    var n := ScanStep(s, old_, new_);
    var tail := s[n..];
    var rest := ReplaceAll(tail, old_, new_);
    var head := if old_ <= s then new_ else s[..1];
    if k < n {
      b := 0;
      OccursStart(s, old_);
      OccursStart(head + rest, new_);
    } else {
      assert s == s[..n] + tail;
      OccursShift(s[..n], tail, k - n, old_);
      assert (head + rest)[k] == rest[k - n] && s[k] == tail[k - n];
      var b' := InBlock(tail, old_, new_, k - n);
      b := b' + n;
      OccursShift(s[..n], tail, b', old_);
      OccursShift(head, rest, b', new_);
    }
  }

  /** Laying `p` over `text` so that `p[m]` meets `text[i]` fails at a neighbouring character. */
  predicate Clash(text: string, i: nat, p: string, m: nat)
    requires i < |text| && m < |p|
  {
    || (i > 0 && m > 0 && text[i - 1] != p[m - 1])
    || (i + 1 < |text| && m + 1 < |p| && text[i + 1] != p[m + 1])
  }

  /** No occurrence of `p` can use a character that turning `from` into `to` introduces. */
  predicate Guarded(from: string, to: string, p: string)
    requires |from| == |to|
  {
    forall i: nat, m: nat :: i < |to| && m < |p| && to[i] != from[i] && p[m] == to[i] ==> Clash(to, i, p, m)
  }

  /** `Guarded`, as a search over positions of the two texts. */
  predicate GuardedFrom(from: string, to: string, p: string, i: nat, m: nat)
    requires |from| == |to| && i <= |to| && m <= |p|
    decreases |to| - i, |p| - m
  {
    if i == |to| then true
    else if m == |p| || to[i] == from[i] then GuardedFrom(from, to, p, i + 1, 0)
    else (p[m] == to[i] ==> Clash(to, i, p, m)) && GuardedFrom(from, to, p, i, m + 1)
  }

  lemma {:induction false} GuardedFromCovers(from: string, to: string, p: string, i: nat, m: nat, i': nat, m': nat)
    requires |from| == |to| && i <= |to| && m <= |p| && GuardedFrom(from, to, p, i, m)
    requires i' < |to| && m' < |p| && to[i'] != from[i'] && p[m'] == to[i']
    requires i < i' || (i == i' && m <= m')
    ensures Clash(to, i', p, m')
    decreases |to| - i, |p| - m
  {
    if m == |p| || to[i] == from[i] {
      GuardedFromCovers(from, to, p, i + 1, 0, i', m');
    } else if i != i' || m != m' {
      GuardedFromCovers(from, to, p, i, m + 1, i', m');
    }
  }

  lemma GuardedFromStart(from: string, to: string, p: string)
    requires |from| == |to| && GuardedFrom(from, to, p, 0, 0)
    ensures Guarded(from, to, p)
  {
    forall i: nat, m: nat | i < |to| && m < |p| && to[i] != from[i] && p[m] == to[i] ensures Clash(to, i, p, m) {
      GuardedFromCovers(from, to, p, 0, 0, i, m);
    }
  }

  lemma ClashRefutes(r: string, b: nat, text: string, k: nat, p: string, i: nat, m: nat)
    requires OccursAt(r, b, text) && OccursAt(r, k, p)
    requires i < |text| && m < |p| && b + i == k + m
    ensures !Clash(text, i, p, m)
  {
    if i > 0 && m > 0 {
      OccursChar(r, b, text, i - 1);
      OccursChar(r, k, p, m - 1);
    }
    if i + 1 < |text| && m + 1 < |p| {
      OccursChar(r, b, text, i + 1);
      OccursChar(r, k, p, m + 1);
    }
  }

  /** A position of `p` in the result that the replacement changed: it lies in a block, which `p` clashes with. */
  lemma ChangedClashes(s: string, old_: string, new_: string, p: string, k: nat, m: nat)
    requires old_ != "" && |new_| == |old_| && |ReplaceAll(s, old_, new_)| == |s| && m < |p|
    requires OccursAt(ReplaceAll(s, old_, new_), k, p) && Guarded(old_, new_, p)
    ensures k + m < |s| && s[k + m] == p[m]
  {
    hide ReplaceAll, OccursAt, Clash;
    var r := ReplaceAll(s, old_, new_);
    OccursFits(r, k, p);
    OccursChar(r, k, p, m);
    if r[k + m] != s[k + m] {
      var b := InBlock(s, old_, new_, k + m);
      OccursChar(r, b, new_, k + m - b);
      OccursChar(s, b, old_, k + m - b);
      ClashRefutes(r, b, new_, k, p, k + m - b, m);
    }
  }

  lemma NotCreated(s: string, old_: string, new_: string, p: string, k: nat)
    requires old_ != "" && |new_| == |old_| && Guarded(old_, new_, p)
    requires OccursAt(ReplaceAll(s, old_, new_), k, p)
    ensures OccursAt(s, k, p)
  {
    hide ReplaceAll, OccursAt, Guarded;
    ReplaceKeepsLength(s, old_, new_);
    OccursFits(ReplaceAll(s, old_, new_), k, p);
    forall m: nat | m < |p| ensures s[k + m] == p[m] {
      ChangedClashes(s, old_, new_, p, k, m);
    }
    OccursChars(s, k, p);
  }

  /** The same, for a position of `p` in the source. */
  lemma LostClashes(s: string, old_: string, new_: string, p: string, k: nat, m: nat)
    requires old_ != "" && |new_| == |old_| && |ReplaceAll(s, old_, new_)| == |s| && m < |p|
    requires OccursAt(s, k, p) && Guarded(new_, old_, p)
    ensures k + m < |s| && ReplaceAll(s, old_, new_)[k + m] == p[m]
  {
    hide ReplaceAll, OccursAt, Clash;
    var r := ReplaceAll(s, old_, new_);
    OccursFits(s, k, p);
    OccursChar(s, k, p, m);
    if r[k + m] != s[k + m] {
      var b := InBlock(s, old_, new_, k + m);
      OccursChar(r, b, new_, k + m - b);
      OccursChar(s, b, old_, k + m - b);
      ClashRefutes(s, b, old_, k, p, k + m - b, m);
    }
  }

  lemma NotDestroyed(s: string, old_: string, new_: string, p: string, k: nat)
    requires old_ != "" && |new_| == |old_| && Guarded(new_, old_, p)
    requires OccursAt(s, k, p)
    ensures OccursAt(ReplaceAll(s, old_, new_), k, p)
  {
    hide ReplaceAll, OccursAt, Guarded;
    var r := ReplaceAll(s, old_, new_);
    ReplaceKeepsLength(s, old_, new_);
    OccursFits(s, k, p);
    forall m: nat | m < |p| ensures r[k + m] == p[m] {
      LostClashes(s, old_, new_, p, k, m);
    }
    OccursChars(r, k, p);
  }

  /** The new text, laid anywhere over the start of an old text, differs from it in one of the first
      two characters that meet, or is a different text in the same place. */
  predicate Clears(old_: string, new_: string)
    requires |old_| == |new_|
  {
    && new_ != old_
    && forall d: nat :: 1 <= d < |old_| ==> Misfit(old_, new_, d)
  }

  predicate Misfit(old_: string, new_: string, d: nat)
    requires 1 <= d < |old_| == |new_|
  {
    new_[d] != old_[0] || (d + 1 < |new_| && new_[d + 1] != old_[1])
  }

  lemma OverlapRefutesClears(r: string, b: nat, new_: string, k: nat, old_: string)
    requires old_ != "" && |old_| == |new_| && OccursAt(r, b, new_) && OccursAt(r, k, old_)
    requires b <= k < b + |new_|
    ensures !Clears(old_, new_)
  {
    var d: nat := k - b;
    if d == 0 {
      assert new_ == r[b..b + |new_|] == r[k..k + |old_|] == old_;
    } else {
      OccursChar(r, k, old_, 0);
      OccursChar(r, b, new_, d);
      assert new_[d] == old_[0];
      if d + 1 < |new_| {
        OccursChar(r, k, old_, 1);
        OccursChar(r, b, new_, d + 1);
        assert new_[d + 1] == old_[1];
      }
      assert !Misfit(old_, new_, d);
    }
  }

  lemma ReplaceClears(s: string, old_: string, new_: string, k: nat)
    requires old_ != "" && |new_| == |old_| && Guarded(old_, new_, old_) && Clears(old_, new_)
    ensures !OccursAt(ReplaceAll(s, old_, new_), k, old_)
  {
    if OccursAt(ReplaceAll(s, old_, new_), k, old_) {
      NotCreated(s, old_, new_, old_, k);
      ReplaceKeepsLength(s, old_, new_);
      var b := InBlock(s, old_, new_, k);
      OverlapRefutesClears(ReplaceAll(s, old_, new_), b, new_, k, old_);
      assert false;
    }
  }

  // ----- the chain -----

  datatype Rule = Rule(old_: string, new_: string)

  /** The twelve acronym rules, in the order they run; each keeps the length. */
  const RULES: seq<Rule> := [
    Rule("IPSec", "IpSec"),
    Rule("CPE", "Cpe"),
    Rule("VCN", "Vcn"),
    Rule("VLAN", "Vlan"),
    Rule("VNIC", "Vnic"),
    Rule("NAT", "Nat"),
    Rule("DRG", "Drg"),
    Rule("KMS", "Kms"),
    Rule("SSL", "Ssl"),
    Rule("UI", "Ui"),
    Rule("Crossconnect", "CrossConnect"),
    Rule("RR", "Rr")
  ]

  const OAUTH := "OAuth"

  predicate IsRule(from: string, to: string) {
    || (from == "IPSec" && to == "IpSec")
    || (from == "CPE" && to == "Cpe")
    || (from == "VCN" && to == "Vcn")
    || (from == "VLAN" && to == "Vlan")
    || (from == "VNIC" && to == "Vnic")
    || (from == "NAT" && to == "Nat")
    || (from == "DRG" && to == "Drg")
    || (from == "KMS" && to == "Kms")
    || (from == "SSL" && to == "Ssl")
    || (from == "UI" && to == "Ui")
    || (from == "Crossconnect" && to == "CrossConnect")
    || (from == "RR" && to == "Rr")
  }

  predicate Capitals(p: string) {
    forall i :: 0 <= i < |p| ==> 'A' <= p[i] <= 'Z'
  }

  /** All rules but `Crossconnect` only turn capitals into small letters. */
  predicate Lowers(from: string, to: string) {
    |from| == |to| && forall i :: 0 <= i < |to| && to[i] != from[i] ==> 'a' <= to[i] <= 'z'
  }

  lemma LoweringGuardsCapitals(from: string, to: string, p: string)
    requires Lowers(from, to) && Capitals(p)
    ensures Guarded(from, to, p)
  {
  }

  lemma RuleShape(from: string, to: string)
    requires IsRule(from, to)
    ensures from != "" && |from| == |to| && Clears(from, to)
    ensures from != "Crossconnect" ==> Lowers(from, to)
    ensures from != "Crossconnect" && from != "IPSec" ==> Capitals(from)
  {
  }

  // The patterns that mix capitals and small letters are checked rule by rule.

  lemma IpSecGuards()
    ensures GuardedFrom("IPSec", "IpSec", "IPSec", 0, 0) && Guarded("IPSec", "IpSec", "Crossconnect")
    ensures GuardedFrom("IPSec", "IpSec", "OAuth", 0, 0) && GuardedFrom("IpSec", "IPSec", "OAuth", 0, 0)
  {
  }

  lemma CpeGuards()
    ensures GuardedFrom("CPE", "Cpe", "IPSec", 0, 0) && Guarded("CPE", "Cpe", "Crossconnect")
    ensures GuardedFrom("CPE", "Cpe", "OAuth", 0, 0) && GuardedFrom("Cpe", "CPE", "OAuth", 0, 0)
  {
  }

  lemma VcnGuards()
    ensures GuardedFrom("VCN", "Vcn", "IPSec", 0, 0) && Guarded("VCN", "Vcn", "Crossconnect")
    ensures GuardedFrom("VCN", "Vcn", "OAuth", 0, 0) && GuardedFrom("Vcn", "VCN", "OAuth", 0, 0)
  {
  }

  lemma VlanGuards()
    ensures GuardedFrom("VLAN", "Vlan", "IPSec", 0, 0) && Guarded("VLAN", "Vlan", "Crossconnect")
    ensures GuardedFrom("VLAN", "Vlan", "OAuth", 0, 0) && GuardedFrom("Vlan", "VLAN", "OAuth", 0, 0)
  {
  }

  lemma VnicGuards()
    ensures GuardedFrom("VNIC", "Vnic", "IPSec", 0, 0) && Guarded("VNIC", "Vnic", "Crossconnect")
    ensures GuardedFrom("VNIC", "Vnic", "OAuth", 0, 0) && GuardedFrom("Vnic", "VNIC", "OAuth", 0, 0)
  {
  }

  lemma NatGuards()
    ensures GuardedFrom("NAT", "Nat", "IPSec", 0, 0) && Guarded("NAT", "Nat", "Crossconnect")
    ensures GuardedFrom("NAT", "Nat", "OAuth", 0, 0) && GuardedFrom("Nat", "NAT", "OAuth", 0, 0)
  {
  }

  lemma DrgGuards()
    ensures GuardedFrom("DRG", "Drg", "IPSec", 0, 0) && Guarded("DRG", "Drg", "Crossconnect")
    ensures GuardedFrom("DRG", "Drg", "OAuth", 0, 0) && GuardedFrom("Drg", "DRG", "OAuth", 0, 0)
  {
  }

  lemma KmsGuards()
    ensures GuardedFrom("KMS", "Kms", "IPSec", 0, 0) && Guarded("KMS", "Kms", "Crossconnect")
    ensures GuardedFrom("KMS", "Kms", "OAuth", 0, 0) && GuardedFrom("Kms", "KMS", "OAuth", 0, 0)
  {
  }

  lemma SslGuards()
    ensures GuardedFrom("SSL", "Ssl", "IPSec", 0, 0) && Guarded("SSL", "Ssl", "Crossconnect")
    ensures GuardedFrom("SSL", "Ssl", "OAuth", 0, 0) && GuardedFrom("Ssl", "SSL", "OAuth", 0, 0)
  {
  }

  lemma UiGuards()
    ensures GuardedFrom("UI", "Ui", "IPSec", 0, 0) && Guarded("UI", "Ui", "Crossconnect")
    ensures GuardedFrom("UI", "Ui", "OAuth", 0, 0) && GuardedFrom("Ui", "UI", "OAuth", 0, 0)
  {
  }

  lemma RrGuards()
    ensures GuardedFrom("RR", "Rr", "IPSec", 0, 0) && Guarded("RR", "Rr", "Crossconnect")
    ensures GuardedFrom("RR", "Rr", "OAuth", 0, 0) && GuardedFrom("Rr", "RR", "OAuth", 0, 0)
  {
  }

  predicate OutsideSco(p: string, m: nat)
    requires m < |p|
  {
    (m > 0 && p[m - 1] != 's') || (m + 1 < |p| && p[m + 1] != 'o')
  }

  /** The only character that the `Crossconnect` rule changes sits between `s` and `o`. */
  lemma CrossConnectGuards(p: string)
    requires forall m: nat :: m < |p| && p[m] == 'C' ==> OutsideSco(p, m)
    ensures Guarded("Crossconnect", "CrossConnect", p)
  {
    var from, to := "Crossconnect", "CrossConnect";
    forall i: nat, m: nat | i < |to| && m < |p| && to[i] != from[i] && p[m] == to[i] ensures Clash(to, i, p, m) {
      assert i == 5;
      assert to[5] == 'C' && to[4] == 's' && to[6] == 'o';
      assert OutsideSco(p, m);
    }
  }

  lemma CrossConnectKeepsOAuth()
    ensures Guarded("CrossConnect", "Crossconnect", OAUTH)
  {
    var from, to := "CrossConnect", "Crossconnect";
    assert forall m: nat :: m < |OAUTH| ==> OAUTH[m] != 'c';
    assert forall i: nat :: i < |to| && to[i] != from[i] ==> to[i] == 'c';
  }

  lemma RuleGuardsMixed(from: string, to: string)
    requires IsRule(from, to) && from != "Crossconnect"
    ensures |from| == |to| && Guarded(from, to, "IPSec") && Guarded(from, to, "Crossconnect")
    ensures Guarded(from, to, OAUTH) && Guarded(to, from, OAUTH)
  {
    if from == "IPSec" {
      IpSecGuards();
    } else if from == "CPE" {
      CpeGuards();
    } else if from == "VCN" {
      VcnGuards();
    } else if from == "VLAN" {
      VlanGuards();
    } else if from == "VNIC" {
      VnicGuards();
    } else if from == "NAT" {
      NatGuards();
    } else if from == "DRG" {
      DrgGuards();
    } else if from == "KMS" {
      KmsGuards();
    } else if from == "SSL" {
      SslGuards();
    } else if from == "UI" {
      UiGuards();
    } else if from == "RR" {
      RrGuards();
    }
    GuardedFromStart(from, to, "IPSec");
    GuardedFromStart(from, to, OAUTH);
    GuardedFromStart(to, from, OAUTH);
  }

  lemma RuleRespectsOAuth(from: string, to: string)
    requires IsRule(from, to)
    ensures |from| == |to| && Guarded(from, to, OAUTH) && Guarded(to, from, OAUTH)
  {
    if from == "Crossconnect" {
      CrossConnectGuards(OAUTH);
      CrossConnectKeepsOAuth();
    } else {
      RuleGuardsMixed(from, to);
    }
  }

  /** In every pattern, a `C` is not preceded by `s` or not followed by `o`. */
  lemma PatternsAvoidCo(p: string, q: string, m: nat)
    requires IsRule(p, q) && m < |p| && p[m] == 'C'
    ensures OutsideSco(p, m)
  {
  }

  /** No rule respells the pattern of any rule, itself included. */
  lemma RulesGuardEachOther(from: string, to: string, p: string, q: string)
    requires IsRule(from, to) && IsRule(p, q)
    ensures |from| == |to| && Guarded(from, to, p)
  {
    if from == "Crossconnect" {
      forall m: nat | m < |p| && p[m] == 'C'
        ensures OutsideSco(p, m)
      {
        PatternsAvoidCo(p, q, m);
      }
      CrossConnectGuards(p);
    } else if p == "IPSec" || p == "Crossconnect" {
      RuleGuardsMixed(from, to);
    } else {
      RuleShape(from, to);
      RuleShape(p, q);
      LoweringGuardsCapitals(from, to, p);
    }
  }

  // ----- the first twelve replacements -----

  ghost predicate RuleList(rules: seq<Rule>) {
    forall r :: r in rules ==> IsRule(r.old_, r.new_)
  }

  function Respell(s: string, rules: seq<Rule>): string
    requires RuleList(rules)
    decreases |rules|
  {
    if rules == [] then s
    else
      RuleShape(rules[0].old_, rules[0].new_);
      Respell(ReplaceAll(s, rules[0].old_, rules[0].new_), rules[1..])
  }

  /** Run in any order, the rules remove their patterns for good. */
  lemma {:induction false} RespellClears(s: string, rules: seq<Rule>, p: string, q: string)
    requires RuleList(rules) && IsRule(p, q)
    requires !Contains(s, p) || Rule(p, q) in rules
    ensures !Contains(Respell(s, rules), p)
    decreases |rules|
  {
    if rules != [] {
      var rule := rules[0];
      RuleShape(rule.old_, rule.new_);
      RulesGuardEachOther(rule.old_, rule.new_, p, q);
      var r := ReplaceAll(s, rule.old_, rule.new_);
      if rule == Rule(p, q) {
        forall k: nat ensures !OccursAt(r, k, p) { ReplaceClears(s, p, q, k); }
      } else if !Contains(s, p) {
        forall k: nat ensures !OccursAt(r, k, p) {
          if OccursAt(r, k, p) {
            NotCreated(s, rule.old_, rule.new_, p, k);
          }
        }
      }
      RespellClears(r, rules[1..], p, q);
    }
  }

  lemma {:induction false} RespellKeepsOAuth(s: string, rules: seq<Rule>)
    requires RuleList(rules)
    ensures |Respell(s, rules)| == |s|
    ensures forall k: nat :: OccursAt(Respell(s, rules), k, OAUTH) <==> OccursAt(s, k, OAUTH)
    decreases |rules|
  {
    if rules != [] {
      var rule := rules[0];
      RuleShape(rule.old_, rule.new_);
      RuleRespectsOAuth(rule.old_, rule.new_);
      var r := ReplaceAll(s, rule.old_, rule.new_);
      ReplaceKeepsLength(s, rule.old_, rule.new_);
      forall k: nat ensures OccursAt(r, k, OAUTH) <==> OccursAt(s, k, OAUTH) {
        if OccursAt(r, k, OAUTH) { NotCreated(s, rule.old_, rule.new_, OAUTH, k); }
        if OccursAt(s, k, OAUTH) { NotDestroyed(s, rule.old_, rule.new_, OAUTH, k); }
      }
      RespellKeepsOAuth(r, rules[1..]);
    }
  }

  lemma {:induction false} RespellAbsent(s: string, rules: seq<Rule>)
    requires RuleList(rules)
    requires forall r :: r in rules ==> !Contains(s, r.old_)
    ensures Respell(s, rules) == s
  {
    if rules != [] {
      RuleShape(rules[0].old_, rules[0].new_);
      assert rules[0] in rules;
      ReplaceAbsent(s, rules[0].old_, rules[0].new_);
      RespellAbsent(s, rules[1..]);
    }
  }

  // ----- the OAuth rule, which lengthens the string -----

  /** The number of positions at which `p` occurs. */
  function Count(s: string, p: string): nat
  {
    if s == [] then 0 else (if p <= s then 1 else 0) + Count(s[1..], p)
  }

  lemma {:induction false} CountByPositions(s: string, t: string, p: string)
    requires |s| == |t| && forall k: nat :: OccursAt(s, k, p) <==> OccursAt(t, k, p)
    ensures Count(s, p) == Count(t, p)
  {
    if s != [] {
      assert OccursAt(s, 0, p) <==> OccursAt(t, 0, p);
      assert |p| <= |s| ==> s[0..|p|] == s[..|p|] && t[0..|p|] == t[..|p|];
      assert s == s[..1] + s[1..] && t == t[..1] + t[1..];
      forall k: nat ensures OccursAt(s[1..], k, p) <==> OccursAt(t[1..], k, p) {
        OccursShift(s[..1], s[1..], k, p);
        OccursShift(t[..1], t[1..], k, p);
        assert OccursAt(s, k + 1, p) <==> OccursAt(t, k + 1, p);
      }
      CountByPositions(s[1..], t[1..], p);
    }
  }

  lemma {:induction false} CountPositive(s: string, p: string)
    requires p != ""
    ensures Count(s, p) > 0 <==> Contains(s, p)
  {
    if s == [] {
      forall k: nat ensures !OccursAt(s, k, p) { }
    } else {
      CountPositive(s[1..], p);
      assert s == s[..1] + s[1..];
      assert |p| <= |s| ==> s[0..|p|] == s[..|p|];
      if Contains(s, p) {
        var k: nat :| OccursAt(s, k, p);
        if k > 0 {
          OccursShift(s[..1], s[1..], k - 1, p);
        }
      }
      if p <= s {
        assert OccursAt(s, 0, p);
      } else if Contains(s[1..], p) {
        var k: nat :| OccursAt(s[1..], k, p);
        OccursShift(s[..1], s[1..], k, p);
        assert OccursAt(s, k + 1, p);
      }
    }
  }

  /** The letters of `OAuth` are distinct, so its occurrences never overlap. */
  lemma CountAfterOAuth(s: string)
    requires OAUTH <= s
    ensures Count(s, OAUTH) == 1 + Count(s[|OAUTH|..], OAUTH)
  {
    assert s[0] == 'O' && s[1] == 'A' && s[2] == 'u' && s[3] == 't' && s[4] == 'h';
    assert s[1..][1..] == s[2..] && s[2..][1..] == s[3..] && s[3..][1..] == s[4..] && s[4..][1..] == s[5..];
    assert s[1..][0] == 'A' && s[2..][0] == 'u' && s[3..][0] == 't' && s[4..][0] == 'h';
    assert OAUTH[0] == 'O';
    assert Count(s[1..], OAUTH) == Count(s[2..], OAUTH);
    assert Count(s[2..], OAUTH) == Count(s[3..], OAUTH);
    assert Count(s[3..], OAUTH) == Count(s[4..], OAUTH);
    assert Count(s[4..], OAUTH) == Count(s[5..], OAUTH);
  }

  lemma {:induction false} CountShort(s: string, p: string)
    requires |s| < |p|
    ensures Count(s, p) == 0
  {
    if s != [] {
      CountShort(s[1..], p);
    }
  }

  lemma {:induction false} OAuthGrowth(s: string)
    ensures |ReplaceAll(s, OAUTH, "OAuth2")| == |s| + Count(s, OAUTH)
    decreases |s|
  {
    if |s| < |OAUTH| {
      CountShort(s, OAUTH);
    } else if OAUTH <= s {
      CountAfterOAuth(s);
      OAuthGrowth(s[|OAUTH|..]);
    } else {
      OAuthGrowth(s[1..]);
    }
  }

  /** A text that starts what `OAuth2` replacement produced, and holds no `2`, started the source too. */
  lemma {:induction false} OAuthPrefix(s: string, p: string)
    requires p <= ReplaceAll(s, OAUTH, "OAuth2") && '2' !in p
    ensures p <= s
    decreases |s|
  {
    if |s| < |OAUTH| || p == "" {
    } else if OAUTH <= s {
      var r := ReplaceAll(s, OAUTH, "OAuth2");
      assert r[5] == '2' && r[..5] == s[..5];
      assert |p| <= 5;
      assert p == r[..5][..|p|] == s[..5][..|p|];
    } else {
      var r := ReplaceAll(s, OAUTH, "OAuth2");
      assert r[0] == s[0] && r[1..] == ReplaceAll(s[1..], OAUTH, "OAuth2");
      assert p[1..] == r[1..][..|p| - 1];
      OAuthPrefix(s[1..], p[1..]);
      assert p == [p[0]] + p[1..] && s == [s[0]] + s[1..];
    }
  }

  lemma {:induction false} OAuthCreatesNothing(s: string, p: string, k: nat)
    requires OccursAt(ReplaceAll(s, OAUTH, "OAuth2"), k, p) && '2' !in p && p != ""
    ensures Contains(s, p)
    decreases |s|
  {
    hide Contains;
    var r := ReplaceAll(s, OAUTH, "OAuth2");
    if |s| < |OAUTH| {
      ContainsAt(s, p, k);
    } else if k == 0 {
      assert p <= r;
      OAuthPrefix(s, p);
      ContainsAt(s, p, 0);
    } else if OAUTH <= s {
      var rest := ReplaceAll(s[5..], OAUTH, "OAuth2");
      assert r == "OAuth2" + rest && s == s[..5] + s[5..];
      if k >= 6 {
        OccursShift("OAuth2", rest, k - 6, p);
        OAuthCreatesNothing(s[5..], p, k - 6);
        ContainsLater(s, 5, p);
      } else {
        assert r[5] == '2' && r[..5] == s[..5];
        assert k + |p| <= 5 by {
          if k + |p| > 5 {
            OccursChar(r, k, p, 5 - k);
          }
        }
        assert r[k..k + |p|] == r[..5][k..k + |p|] == s[..5][k..k + |p|] == s[k..k + |p|];
        ContainsAt(s, p, k);
      }
    } else {
      var rest := ReplaceAll(s[1..], OAUTH, "OAuth2");
      assert r == s[..1] + rest && s == s[..1] + s[1..];
      OccursShift(s[..1], rest, k - 1, p);
      OAuthCreatesNothing(s[1..], p, k - 1);
      ContainsLater(s, 1, p);
    }
  }

  // ----- specVariants -----

  lemma RulesAreRules()
    ensures RuleList(RULES)
  {
    hide IsRule;
    forall rule | rule in RULES ensures IsRule(rule.old_, rule.new_) {
      var i :| 0 <= i < |RULES| && RULES[i] == rule;
      EachIsRule(i);
    }
  }

  lemma EachIsRule(i: nat)
    requires i < |RULES|
    ensures IsRule(RULES[i].old_, RULES[i].new_)
  {
    if i < 6 {
      assert i == 0 || i == 1 || i == 2 || i == 3 || i == 4 || i == 5;
    } else {
      assert i == 6 || i == 7 || i == 8 || i == 9 || i == 10 || i == 11;
    }
  }

  /** The spelling that `specVariants` derives from a spec name. */
  function Spelling(spec: string): string
  {
    RulesAreRules();
    ReplaceAll(Respell(spec, RULES), OAUTH, "OAuth2")
  }

  lemma NoDigit(p: string, q: string)
    requires IsRule(p, q)
    ensures '2' !in p && p != ""
  {
  }

  lemma RuleInList(p: string, q: string)
    requires IsRule(p, q)
    ensures Rule(p, q) in RULES
  {
    assert RULES[0] == Rule("IPSec", "IpSec") && RULES[1] == Rule("CPE", "Cpe") && RULES[2] == Rule("VCN", "Vcn");
    assert RULES[3] == Rule("VLAN", "Vlan") && RULES[4] == Rule("VNIC", "Vnic") && RULES[5] == Rule("NAT", "Nat");
    assert RULES[6] == Rule("DRG", "Drg") && RULES[7] == Rule("KMS", "Kms") && RULES[8] == Rule("SSL", "Ssl");
    assert RULES[9] == Rule("UI", "Ui") && RULES[10] == Rule("Crossconnect", "CrossConnect");
    assert RULES[11] == Rule("RR", "Rr");
  }

  /** None of the twelve acronym patterns is left in the derived spelling. */
  lemma SpellingClears(spec: string, p: string)
    requires p in {"IPSec", "CPE", "VCN", "VLAN", "VNIC", "NAT", "DRG", "KMS", "SSL", "UI", "Crossconnect", "RR"}
    ensures !Contains(Spelling(spec), p)
  {
    hide Respell, ReplaceAll, Contains, OccursAt;
    RulesAreRules();
    var q := Respelled(p);
    var v := Respell(spec, RULES);
    RuleInList(p, q);
    RespellClears(spec, RULES, p, q);
    NoDigit(p, q);
    if Contains(Spelling(spec), p) {
      var k := SomeOccurrence(Spelling(spec), p);
      OAuthCreatesNothing(v, p, k);
    }
  }

  lemma SomeOccurrence(s: string, p: string) returns (k: nat)
    requires Contains(s, p)
    ensures OccursAt(s, k, p)
  {
    k :| k <= |s| && OccursAt(s, k, p);
  }

  lemma Respelled(p: string) returns (q: string)
    requires p in {"IPSec", "CPE", "VCN", "VLAN", "VNIC", "NAT", "DRG", "KMS", "SSL", "UI", "Crossconnect", "RR"}
    ensures IsRule(p, q)
  {
    if p == "IPSec" { q := "IpSec"; }
    else if p == "CPE" { q := "Cpe"; }
    else if p == "VCN" { q := "Vcn"; }
    else if p == "VLAN" { q := "Vlan"; }
    else if p == "VNIC" { q := "Vnic"; }
    else if p == "NAT" { q := "Nat"; }
    else if p == "DRG" { q := "Drg"; }
    else if p == "KMS" { q := "Kms"; }
    else if p == "SSL" { q := "Ssl"; }
    else if p == "UI" { q := "Ui"; }
    else if p == "Crossconnect" { q := "CrossConnect"; }
    else { q := "Rr"; }
  }

  // ----- what the first twelve replacements write -----

  /** A character that differs was written by a rule, in a place where the rule's pattern stood in the source. */
  lemma {:induction false} RespellChanges(s: string, rules: seq<Rule>, k: nat) returns (p: string, q: string, b: nat)
    requires RuleList(rules) && k < |s| && |Respell(s, rules)| == |s| && Respell(s, rules)[k] != s[k]
    ensures IsRule(p, q) && |p| == |q| && b <= k < b + |p| && OccursAt(s, b, p) && Respell(s, rules)[k] == q[k - b]
    decreases |rules|
  {
    hide OccursAt, IsRule, ReplaceAll, Clears, Capitals, Lowers;
    var rule := rules[0];
    RuleShape(rule.old_, rule.new_);
    var r := ReplaceAll(s, rule.old_, rule.new_);
    ReplaceKeepsLength(s, rule.old_, rule.new_);
    RespellKeepsOAuth(r, rules[1..]);
    if Respell(r, rules[1..])[k] != r[k] {
      p, q, b := RespellChanges(r, rules[1..], k);
      RulesGuardEachOther(rule.old_, rule.new_, p, q);
      NotCreated(s, rule.old_, rule.new_, p, b);
    } else {
      p, q := rule.old_, rule.new_;
      b := InBlock(s, p, q, k);
      OccursChar(r, b, q, k - b);
    }
  }

  /** The table of `specVariants`, written out once more. */
  function AcronymTable(): map<string, string>
  {
    map["IPSec" := "IpSec", "CPE" := "Cpe", "VCN" := "Vcn", "VLAN" := "Vlan", "VNIC" := "Vnic", "NAT" := "Nat",
        "DRG" := "Drg", "KMS" := "Kms", "SSL" := "Ssl", "UI" := "Ui", "Crossconnect" := "CrossConnect", "RR" := "Rr"]
  }

  lemma RuleInTable(p: string, q: string)
    ensures IsRule(p, q) <==> p in AcronymTable() && AcronymTable()[p] == q
  {
  }

  /** Before the last step the length is the same, and a character differs only where a pattern of the table stood, and
      then it is the character of the pattern's replacement. */
  lemma SpellingWritesReplacements(spec: string, k: nat)
    requires k < |spec|
    ensures RuleList(RULES) && |Respell(spec, RULES)| == |spec|
    ensures var v := Respell(spec, RULES);
            v[k] == spec[k]
            || exists p, b: nat :: p in AcronymTable() && b <= k < b + |p| && OccursAt(spec, b, p)
                                   && |AcronymTable()[p]| == |p| && v[k] == AcronymTable()[p][k - b]
  {
    hide OccursAt, AcronymTable, Respell, IsRule;
    RulesAreRules();
    RespellKeepsOAuth(spec, RULES);
    if Respell(spec, RULES)[k] != spec[k] {
      var p, q, b := RespellChanges(spec, RULES, k);
      RuleInTable(p, q);
    }
  }

  // ----- an occurrence that no other overlaps -----

  /** No occurrence of a pattern, other than `p` at `b`, overlaps the one at `b`. */
  ghost predicate Isolated(s: string, b: nat, p: string) {
    forall p', q', b': nat :: IsRule(p', q') && OccursAt(s, b', p') && b' < b + |p| && b < b' + |p'| ==>
        p' == p && b' == b
  }

  /** No occurrence of a pattern overlaps the `n` characters from `b`. */
  ghost predicate Untouched(s: string, b: nat, n: nat) {
    forall p', q', b': nat :: IsRule(p', q') && OccursAt(s, b', p') ==> b' >= b + n || b >= b' + |p'|
  }

  lemma StepCreatesNothing(s: string, rule: Rule, p: string, q: string, b: nat)
    requires IsRule(rule.old_, rule.new_) && IsRule(p, q)
    ensures rule.old_ != "" && |ReplaceAll(s, rule.old_, rule.new_)| == |s|
    ensures OccursAt(ReplaceAll(s, rule.old_, rule.new_), b, p) ==> OccursAt(s, b, p)
  {
    hide OccursAt, IsRule, ReplaceAll, Clears, Capitals, Lowers;
    RuleShape(rule.old_, rule.new_);
    ReplaceKeepsLength(s, rule.old_, rule.new_);
    if OccursAt(ReplaceAll(s, rule.old_, rule.new_), b, p) {
      RulesGuardEachOther(rule.old_, rule.new_, p, q);
      NotCreated(s, rule.old_, rule.new_, p, b);
    }
  }

  /** One rule changes nothing where none of its occurrences overlaps. */
  lemma StepKeeps(s: string, rule: Rule, k: nat)
    requires IsRule(rule.old_, rule.new_) && k < |s|
    requires forall b: nat :: OccursAt(s, b, rule.old_) ==> !(b <= k < b + |rule.old_|)
    ensures rule.old_ != "" && |ReplaceAll(s, rule.old_, rule.new_)| == |s|
    ensures ReplaceAll(s, rule.old_, rule.new_)[k] == s[k]
  {
    hide OccursAt, IsRule, ReplaceAll, Clears, Capitals, Lowers;
    RuleShape(rule.old_, rule.new_);
    ReplaceKeepsLength(s, rule.old_, rule.new_);
    if ReplaceAll(s, rule.old_, rule.new_)[k] != s[k] {
      var b := InBlock(s, rule.old_, rule.new_, k);
    }
  }

  lemma {:induction false} UntouchedStays(s: string, rules: seq<Rule>, b: nat, n: nat, k: nat)
    requires RuleList(rules) && Untouched(s, b, n) && b <= k < b + n && k < |s|
    ensures |Respell(s, rules)| == |s| && Respell(s, rules)[k] == s[k]
    decreases |rules|
  {
    hide OccursAt, IsRule, ReplaceAll;
    if rules != [] {
      var rule := rules[0];
      assert IsRule(rule.old_, rule.new_);
      StepKeeps(s, rule, k);
      var r := ReplaceAll(s, rule.old_, rule.new_);
      forall p', q', b': nat | IsRule(p', q') && OccursAt(r, b', p') ensures b' >= b + n || b >= b' + |p'| {
        StepCreatesNothing(s, rule, p', q', b');
      }
      UntouchedStays(r, rules[1..], b, n, k);
    }
  }

  lemma SameRule(p: string, q: string, q': string)
    requires IsRule(p, q) && IsRule(p, q')
    ensures q == q' && p != q && |p| == |q|
  {
  }

  /** An occurrence of a pattern that no other occurrence overlaps is spelled as the replacement. */
  lemma {:induction false} IsolatedRespelled(s: string, rules: seq<Rule>, b: nat, p: string, q: string, k: nat)
    requires RuleList(rules) && Rule(p, q) in rules && OccursAt(s, b, p) && Isolated(s, b, p) && |p| == |q|
             && b <= k < b + |p| <= |s|
    ensures |Respell(s, rules)| == |s| && Respell(s, rules)[k] == q[k - b]
    decreases |rules|
  {
    hide OccursAt, IsRule, ReplaceAll;
    var rule := rules[0];
    assert rule in rules && IsRule(rule.old_, rule.new_) && IsRule(p, q);
    StepCreatesNothing(s, rule, p, q, b);
    var r := ReplaceAll(s, rule.old_, rule.new_);
    if rule == Rule(p, q) {
      IsolatedReplaced(s, b, p, q);
      OccursChar(r, b, q, k - b);
      IsolatedThenUntouched(s, b, p, q);
      UntouchedStays(r, rules[1..], b, |p|, k);
    } else {
      IsolatedKept(s, rule, b, p, q);
      IsolatedRespelled(r, rules[1..], b, p, q, k);
    }
  }

  lemma IsolatedReplaced(s: string, b: nat, p: string, q: string)
    requires IsRule(p, q) && OccursAt(s, b, p) && Isolated(s, b, p) && p != ""
    ensures OccursAt(ReplaceAll(s, p, q), b, q)
  {
    hide OccursAt, IsRule, ReplaceAll, Clears, Capitals, Lowers;
    RuleShape(p, q);
    ReplaceKeepsLength(s, p, q);
    OccursFits(s, b, p);
    var b0 := InBlock(s, p, q, b);
  }

  lemma IsolatedThenUntouched(s: string, b: nat, p: string, q: string)
    requires IsRule(p, q) && Isolated(s, b, p) && p != "" && OccursAt(ReplaceAll(s, p, q), b, q)
    ensures Untouched(ReplaceAll(s, p, q), b, |p|)
  {
    hide OccursAt, IsRule, ReplaceAll;
    var r := ReplaceAll(s, p, q);
    forall p', q', b': nat | IsRule(p', q') && OccursAt(r, b', p') ensures b' >= b + |p| || b >= b' + |p'| {
      StepCreatesNothing(s, Rule(p, q), p', q', b');
      if p' == p && b' == b {
        SameRule(p, q, q');
        OneTextAt(r, b, p, q);
      }
    }
  }

  lemma OneTextAt(r: string, b: nat, p: string, q: string)
    requires OccursAt(r, b, p) && OccursAt(r, b, q) && |p| == |q|
    ensures p == q
  {
  }

  lemma IsolatedKept(s: string, rule: Rule, b: nat, p: string, q: string)
    requires IsRule(rule.old_, rule.new_) && IsRule(p, q) && rule != Rule(p, q)
    requires OccursAt(s, b, p) && Isolated(s, b, p) && rule.old_ != "" && b + |p| <= |s|
    ensures OccursAt(ReplaceAll(s, rule.old_, rule.new_), b, p) && Isolated(ReplaceAll(s, rule.old_, rule.new_), b, p)
  {
    hide OccursAt, IsRule, ReplaceAll;
    var r := ReplaceAll(s, rule.old_, rule.new_);
    StepCreatesNothing(s, rule, p, q, b);
    forall m: nat | m < |p| ensures r[b + m] == p[m] {
      OccursChar(s, b, p, m);
      forall b': nat | OccursAt(s, b', rule.old_) ensures !(b' <= b + m < b' + |rule.old_|) {
        if b' <= b + m < b' + |rule.old_| {
          SameRuleIf(rule, p, q);
        }
      }
      StepKeeps(s, rule, b + m);
    }
    OccursChars(r, b, p);
    forall p', q', b': nat | IsRule(p', q') && OccursAt(r, b', p') && b' < b + |p| && b < b' + |p'|
      ensures p' == p && b' == b
    {
      StepCreatesNothing(s, rule, p', q', b');
    }
  }

  lemma SameRuleIf(rule: Rule, p: string, q: string)
    requires IsRule(rule.old_, rule.new_) && IsRule(p, q)
    ensures rule.old_ == p ==> rule == Rule(p, q)
  {
    hide IsRule;
    if rule.old_ == p {
      SameRule(p, q, rule.new_);
    }
  }

  // ----- each pattern alone -----

  /** The first two letters of a pattern occur in no other pattern, and in its own only at the start. */
  lemma FirstTwo(p: string, q: string, p': string, q': string, b: nat)
    requires IsRule(p, q) && IsRule(p', q') && p != "Crossconnect" && b + |p'| <= |p|
    requires p[b] == p'[0] && p[b + 1] == p'[1]
    ensures p' == p && b == 0
  {
    assert |p| <= 5;
    assert b == 0 || b == 1 || b == 2 || b == 3;
  }

  lemma FirstTwoCrossconnect(p': string, q': string, b: nat)
    requires IsRule(p', q') && b + |p'| <= |"Crossconnect"|
    requires "Crossconnect"[b] == p'[0] && "Crossconnect"[b + 1] == p'[1]
    ensures p' == "Crossconnect" && b == 0
  {
  }

  lemma AloneIsolated(p: string, q: string)
    requires IsRule(p, q)
    ensures Isolated(p, 0, p) && OccursAt(p, 0, p) && 'O' !in p
  {
    hide OccursAt;
    OccursStart(p, p);
    forall p', q', b: nat | IsRule(p', q') && OccursAt(p, b, p') ensures p' == p && b == 0 {
      OccursFits(p, b, p');
      OccursChar(p, b, p', 0);
      OccursChar(p, b, p', 1);
      if p == "Crossconnect" {
        FirstTwoCrossconnect(p', q', b);
      } else {
        FirstTwo(p, q, p', q', b);
      }
    }
  }

  lemma AloneRespelled(p: string, q: string, rules: seq<Rule>)
    requires IsRule(p, q) && Rule(p, q) in rules && RuleList(rules)
    ensures Respell(p, rules) == q && !Contains(Respell(p, rules), OAUTH)
  {
    hide OccursAt, Respell, ReplaceAll, IsRule, Isolated;
    AloneIsolated(p, q);
    SameRule(p, q, q);
    var v := Respell(p, rules);
    RespellKeepsOAuth(p, rules);
    forall k | 0 <= k < |p| ensures v[k] == q[k] {
      IsolatedRespelled(p, rules, 0, p, q, k);
    }
    assert v == q;
    NoOAuth(p, v);
  }

  /** Each pattern of the table alone is spelled as its replacement. */
  lemma EachSpelled(p: string)
    requires p in AcronymTable()
    ensures Spelling(p) == AcronymTable()[p]
    ensures Spelling("OAuth") == "OAuth2"
  {
    hide Respell, ReplaceAll, AcronymTable, IsRule, Contains;
    var q := AcronymTable()[p];
    RuleInTable(p, q);
    RulesAreRules();
    RuleInList(p, q);
    AloneRespelled(p, q, RULES);
    ReplaceAbsent(q, OAUTH, "OAuth2");
    OAuthSpelled();
  }

  lemma NoOAuth(p: string, v: string)
    requires 'O' !in p && forall k: nat :: OccursAt(v, k, OAUTH) <==> OccursAt(p, k, OAUTH)
    ensures !Contains(v, OAUTH)
  {
    hide OccursAt;
    if Contains(v, OAUTH) {
      var k := SomeOccurrence(v, OAUTH);
      OccursFits(p, k, OAUTH);
      OccursChar(p, k, OAUTH, 0);
    }
  }

  lemma OAuthSpelled()
    ensures Spelling("OAuth") == "OAuth2"
  {
    hide Respell;
    RulesAreRules();
    forall rule | rule in RULES ensures !Contains("OAuth", rule.old_) {
      assert IsRule(rule.old_, rule.new_);
      NotInOAuth(rule.old_, rule.new_);
    }
    RespellAbsent("OAuth", RULES);
    assert ReplaceAll("OAuth", OAUTH, "OAuth2") == "OAuth2";
  }

  lemma NotInOAuth(p: string, q: string)
    requires IsRule(p, q)
    ensures !Contains("OAuth", p)
  {
    hide OccursAt;
    if Contains("OAuth", p) {
      var k := SomeOccurrence("OAuth", p);
      OccursFits("OAuth", k, p);
      OccursChar("OAuth", k, p, 0);
      OccursChar("OAuth", k, p, 1);
    }
  }

  /** The spelling grows by one character for each occurrence of `OAuth`. */
  lemma SpellingGrowth(spec: string)
    ensures |Spelling(spec)| == |spec| + Count(spec, OAUTH)
  {
    RulesAreRules();
    RespellKeepsOAuth(spec, RULES);
    CountByPositions(spec, Respell(spec, RULES), OAUTH);
    OAuthGrowth(Respell(spec, RULES));
  }

  /** Deriving the spelling again changes nothing exactly when the name holds no `OAuth`. */
  lemma SpellingIdempotent(spec: string)
    ensures Spelling(Spelling(spec)) == Spelling(spec) <==> !Contains(spec, OAUTH)
  {
    RulesAreRules();
    var v := Respell(spec, RULES);
    var w := Spelling(spec);
    RespellKeepsOAuth(spec, RULES);
    if Contains(spec, OAUTH) {
      var k: nat :| OccursAt(spec, k, OAUTH);
      OAuthSurvives(v, k);
      SpellingGrowth(w);
      CountPositive(w, OAUTH);
    } else {
      assert forall k: nat :: !OccursAt(v, k, OAUTH);
      ReplaceAbsent(v, OAUTH, "OAuth2");
      forall rule | rule in RULES ensures !Contains(w, rule.old_) {
        assert IsRule(rule.old_, rule.new_);
        SpellingClears(spec, rule.old_);
      }
      RespellAbsent(w, RULES);
    }
  }

  /** One step of the scan for `OAuth`. */
  lemma OAuthStep(s: string)
    requires |s| >= |OAUTH|
    ensures ReplaceAll(s, OAUTH, "OAuth2") ==
            if OAUTH <= s then "OAuth2" + ReplaceAll(s[|OAUTH|..], OAUTH, "OAuth2")
                else s[..1] + ReplaceAll(s[1..], OAUTH, "OAuth2")
  {
  }

  lemma {:induction false} OAuthSurvives(s: string, k: nat)
    requires OccursAt(s, k, OAUTH)
    ensures Contains(ReplaceAll(s, OAUTH, "OAuth2"), OAUTH)
    decreases |s|
  {
    hide ReplaceAll, OccursAt, Contains;
    var r := ReplaceAll(s, OAUTH, "OAuth2");
    OccursFits(s, k, OAUTH);
    OAuthStep(s);
    OccursStart(s, OAUTH);
    if OAUTH <= s {
      assert OAUTH <= "OAuth2" <= r;
      OccursStart(r, OAUTH);
      ContainsAt(r, OAUTH, 0);
    } else {
      var tail := s[1..];
      var rest := ReplaceAll(tail, OAUTH, "OAuth2");
      assert s == s[..1] + tail && r[1..] == rest;
      OccursShift(s[..1], tail, k - 1, OAUTH);
      OAuthSurvives(tail, k - 1);
      ContainsLater(r, 1, OAUTH);
    }
  }
}
