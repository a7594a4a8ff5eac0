/** Bringing the rules of a remote security group to the wanted ones, compared by a joined text key. */
module SecurityGroups {
  import opened Text

  /** A wanted rule. */
  datatype Security = Security(protocol: string, cidr: string, startPort: int, endPort: int)

  // ---------- letters ----------

  function UpperChar(c: char): char { if 'a' <= c <= 'z' then ((c as int) - 32) as char else c }

  function LowerChar(c: char): char { if 'A' <= c <= 'Z' then ((c as int) + 32) as char else c }

  /** strings.ToUpper and strings.ToLower on ASCII letters. */
  function Upper(s: string): (u: string)
    ensures |u| == |s|
  {
    seq(|s|, i requires 0 <= i < |s| => UpperChar(s[i]))
  }

  function Lower(s: string): (u: string)
    ensures |u| == |s|
  {
    seq(|s|, i requires 0 <= i < |s| => LowerChar(s[i]))
  }

  lemma {:induction false} LowerOfUpper(p: string, q: string)
    requires Lower(p) == p && Upper(q) == q
    ensures Upper(p) == q <==> p == Lower(q)
  {
  }

  // ---------- keys ----------

  function PortText(start: int, end: int): string { Itoa(start) + "/" + Itoa(end) }

  function Parts(s: Security): seq<string> { [s.protocol, s.cidr, PortText(s.startPort, s.endPort)] }

  function KeyOf(parts: seq<string>): string { Join(parts, '-') }

  lemma {:induction false} ItoaFree(n: int)
    ensures Free(Itoa(n), '/')
  {
  }

  lemma {:induction false} PortTextSplits(a: int, b: int)
    ensures Split(PortText(a, b), '/') == [Itoa(a), Itoa(b)]
  {
    ItoaFree(a);
    ItoaFree(b);
    SplitPrefix(Itoa(a), Itoa(b), '/');
    SplitPrefix(Itoa(b), "", '/');
    assert [Itoa(a)] + [Itoa(b)] == [Itoa(a), Itoa(b)];
  }

  lemma {:induction false} PortTextInjective(a: int, b: int, c: int, d: int)
    requires PortText(a, b) == PortText(c, d)
    ensures a == c && b == d
  {
    PortTextSplits(a, b);
    PortTextSplits(c, d);
    var x, y := [Itoa(a), Itoa(b)], [Itoa(c), Itoa(d)];
    assert x[0] == y[0] && x[1] == y[1];
    ItoaInjective(a, c);
    ItoaInjective(b, d);
  }

  /** No part of the wanted rule holds the separator of the key. */
  predicate Dashless(s: Security) { AllFree(Parts(s), '-') }

  /**
   The key of a wanted rule decides equality with every remote rule, whatever that holds,
   exactly when no part of the wanted rule holds a dash.
   */
  lemma {:induction false} KeyDecidesIff(s: Security)
    ensures Dashless(s) <==> forall parts: seq<string> :: |parts| == 3 && KeyOf(parts) == KeyOf(Parts(s)) ==> parts == Parts(s)
  {
    if Dashless(s) {
      forall parts: seq<string> | |parts| == 3 && KeyOf(parts) == KeyOf(Parts(s)) ensures parts == Parts(s) {
        JoinedKeyDecides(Parts(s), parts, '-');
      }
    } else {
      var other := CollidingParts(Parts(s));
    }
  }

  lemma {:induction false} JoinThree(a: string, b: string, c: string, sep: char)
    ensures Join([a, b, c], sep) == a + [sep] + (b + [sep] + c)
  {
    assert [a, b, c][1..] == [b, c] && [b, c][1..] == [c];
    assert Join([b, c], sep) == b + [sep] + Join([c], sep);
    assert Join([a, b, c], sep) == a + [sep] + Join([b, c], sep);
  }

  /** A list of at least four pieces can be grouped into three parts in two ways, so some other triple has the same key. */
  lemma {:induction false} CollidingParts(parts: seq<string>) returns (other: seq<string>)
    requires |parts| == 3 && !AllFree(parts, '-')
    ensures |other| == 3 && other != parts && KeyOf(other) == KeyOf(parts)
  {
    var a, b, c := parts[0], parts[1], parts[2];
    assert parts == [a, b, c];
    JoinThree(a, b, c, '-');
    if !Free(a, '-') {
      var x, y := CutAt(a, '-');
      other := [x, y + "-" + b, c];
      JoinThree(x, y + "-" + b, c, '-');
      assert a + "-" + (b + "-" + c) == x + "-" + (y + "-" + b + "-" + c);
      assert other[0] == x && parts[0] == a && |x| < |a|;
    } else if !Free(b, '-') {
      var x, y := CutAt(b, '-');
      other := [a + "-" + x, y, c];
      JoinThree(a + "-" + x, y, c, '-');
      assert a + "-" + (b + "-" + c) == a + "-" + x + "-" + (y + "-" + c);
      assert |other[0]| > |parts[0]|;
    } else {
      var x, y := CutAt(c, '-');
      other := [a, b + "-" + x, y];
      JoinThree(a, b + "-" + x, y, '-');
      assert a + "-" + (b + "-" + c) == a + "-" + (b + "-" + x + "-" + y);
      assert |other[1]| > |parts[1]|;
    }
  }

  lemma {:induction false} CutAt(s: string, sep: char) returns (x: string, y: string)
    requires !Free(s, sep)
    ensures s == x + [sep] + y && |x| < |s|
  {
    var i :| 0 <= i < |s| && s[i] == sep;
    x, y := s[..i], s[i + 1..];
  }

  // ---------- AWS ----------

  /** A rule as AWS lists it; an absent text reads as empty, an absent port as 0. */
  datatype AwsRule = AwsRule(egress: bool, protocol: string, cidr: string, fromPort: int, toPort: int)

  function AwsParts(r: AwsRule): seq<string> { [Upper(r.protocol), r.cidr, PortText(r.fromPort, r.toPort)] }

  function ToAws(s: Security): AwsRule { AwsRule(false, Lower(s.protocol), s.cidr, s.startPort, s.endPort) }

  datatype AwsCall = Revoke(rule: AwsRule) | Authorize(rule: AwsRule)

  predicate SameKey(r: AwsRule, s: Security) { KeyOf(AwsParts(r)) == KeyOf(Parts(s)) }

  predicate Wanted(r: AwsRule, securitys: seq<Security>) {
    exists i :: 0 <= i < |securitys| && SameKey(r, securitys[i])
  }

  /** Ingress rules that match no wanted rule. */
  function ToRevoke(rules: set<AwsRule>, securitys: seq<Security>): set<AwsRule> {
    set r | r in rules && !r.egress && !Wanted(r, securitys)
  }

  predicate Present(rules: set<AwsRule>, s: Security) {
    exists r :: r in rules && !r.egress && SameKey(r, s)
  }

  /** Wanted rules that match no ingress rule. */
  function ToAuthorize(rules: set<AwsRule>, securitys: seq<Security>): set<AwsRule> {
    set i | 0 <= i < |securitys| && !Present(rules, securitys[i]) :: ToAws(securitys[i])
  }

  predicate PlannedCall(c: AwsCall, rules: set<AwsRule>, securitys: seq<Security>) {
    match c
    case Revoke(r) => r in ToRevoke(rules, securitys)
    case Authorize(r) => r in ToAuthorize(rules, securitys)
  }

  /** The remote group. Calls may fail, without effect; authorizing a rule that is there always fails. */
  class AwsGroup {
    const faulty: bool
    var rules: set<AwsRule>
    var calls: seq<AwsCall>

    constructor (faulty: bool, rules: set<AwsRule>)
      ensures this.faulty == faulty && this.rules == rules && calls == []
    {
      this.faulty, this.rules, calls := faulty, rules, [];
    }

    method Reachable() returns (ok: bool)
      ensures !faulty ==> ok
    {
      var fail: bool := *;
      ok := !(faulty && fail);
    }

    /** All rules, in some order. */
    method Describe() returns (ok: bool, listed: seq<AwsRule>)
      ensures ok ==> forall r :: r in listed <==> r in rules
      ensures !faulty ==> ok
    {
      ok := Reachable();
      listed := [];
      var todo := rules;
      while todo != {}
        invariant todo <= rules
        invariant forall r :: r in listed <==> r in rules && r !in todo
        decreases |todo|
      {
        var r :| r in todo;
        listed, todo := listed + [r], todo - {r};
      }
    }

    method RevokeIngress(r: AwsRule) returns (ok: bool)
      modifies this
      ensures calls == old(calls) + [Revoke(r)]
      ensures rules == if ok then old(rules) - {r} else old(rules)
      ensures !faulty ==> ok
    {
      ok := Reachable();
      calls := calls + [Revoke(r)];
      if ok {
        rules := rules - {r};
      }
    }

    method AuthorizeIngress(r: AwsRule) returns (ok: bool)
      modifies this
      ensures calls == old(calls) + [Authorize(r)]
      ensures ok ==> r !in old(rules)
      ensures rules == if ok then old(rules) + {r} else old(rules)
      ensures !faulty ==> (ok <==> r !in old(rules))
    {
      ok := Reachable();
      calls := calls + [Authorize(r)];
      ok := ok && r !in rules;
      if ok {
        rules := rules + {r};
      }
    }
  }

  /**
   The rule part of AWS ManageSecurityGroup. Whatever the texts hold: on success exactly the
   unmatched ingress rules are gone and the unmatched wanted rules are there, and every call made,
   also before a failure, is one of those. Without faults it fails exactly if it asks for a rule
   that is there.
   */
  method ManageAwsRules(g: AwsGroup, securitys: seq<Security>) returns (ok: bool)
    modifies g
    ensures ok ==> g.rules == old(g.rules) - ToRevoke(old(g.rules), securitys) + ToAuthorize(old(g.rules), securitys)
    ensures !g.faulty ==> (ok <==> NoClash(old(g.rules), securitys))
    ensures old(g.calls) <= g.calls
    ensures forall i :: |old(g.calls)| <= i < |g.calls| ==> PlannedCall(g.calls[i], old(g.rules), securitys)
  {
    var listed;
    ok, listed := g.Describe();
    if !ok {
      return;
    }
    ghost var was, before := g.rules, g.calls;
    ok := RevokeUnwanted(g, securitys, listed);
    if !ok {
      return;
    }
    var existing := ExistingKeys(securitys, listed);
    ExistingIsPresent(was, securitys, listed, existing);
    ok := AuthorizeMissing(g, securitys, existing, was);
  }

  /** No unmatched wish comes to a rule that a matched wish keeps in place, or to that of an unmatched wish before it. */
  predicate NoClash(rules: set<AwsRule>, securitys: seq<Security>) {
    NoClashUpTo(rules, rules - ToRevoke(rules, securitys), securitys, |securitys|)
  }

  predicate NoClashUpTo(rules: set<AwsRule>, kept: set<AwsRule>, securitys: seq<Security>, n: nat)
    requires n <= |securitys|
  {
    forall i :: 0 <= i < n && !Present(rules, securitys[i]) ==>
                  && ToAws(securitys[i]) !in kept
                  && forall j :: 0 <= j < i && !Present(rules, securitys[j]) ==> ToAws(securitys[j]) != ToAws(securitys[i])
  }

  /** With clean wishes the run fails only if a missing rule is wished for twice. */
  lemma {:induction false} CleanWishesClash(rules: set<AwsRule>, securitys: seq<Security>)
    requires CleanWish(securitys) && LowerCase(rules)
    ensures NoClash(rules, securitys)
            <==> forall i, j :: 0 <= j < i < |securitys| && ToAws(securitys[j]) == ToAws(securitys[i]) ==> ToAws(securitys[i]) in rules
  {
    forall i | 0 <= i < |securitys| ensures Present(rules, securitys[i]) <==> ToAws(securitys[i]) in rules {
      forall r | r in rules && !r.egress ensures SameKey(r, securitys[i]) <==> r == ToAws(securitys[i]) {
        KeyIsEquality(r, securitys[i]);
      }
    }
  }

  /** The first half of the listing loop: unmatched ingress rules are revoked one by one. */
  method RevokeUnwanted(g: AwsGroup, securitys: seq<Security>, listed: seq<AwsRule>) returns (ok: bool)
    requires forall r :: r in listed <==> r in g.rules
    modifies g
    ensures ok ==> g.rules == old(g.rules) - ToRevoke(old(g.rules), securitys)
    ensures !g.faulty ==> ok
    ensures old(g.calls) <= g.calls
    ensures forall i :: |old(g.calls)| <= i < |g.calls| ==> PlannedCall(g.calls[i], old(g.rules), securitys)
  {
    ghost var was, before := g.rules, g.calls;
    for i := 0 to |listed|
      invariant g.rules == was - set r | r in listed[..i] && !r.egress && !Wanted(r, securitys)
      invariant before <= g.calls
      invariant forall k :: |before| <= k < |g.calls| ==> PlannedCall(g.calls[k], was, securitys)
    {
      var r := listed[i];
      if !r.egress && !Wanted(r, securitys) {
        assert r in listed;
        ok := g.RevokeIngress(r);
        if !ok {
          return;
        }
      }
      assert listed[..i + 1] == listed[..i] + [r];
    }
    assert listed[..|listed|] == listed;
    assert ToRevoke(was, securitys) == set r | r in listed && !r.egress && !Wanted(r, securitys);
    ok := true;
  }

  /** The second half of the listing loop: the keys of the wanted rules that are there. */
  method ExistingKeys(securitys: seq<Security>, listed: seq<AwsRule>) returns (keys: seq<string>)
    ensures forall k :: k in keys <==> exists j :: 0 <= j < |listed| && KeptKey(listed[j], securitys, k)
  {
    keys := [];
    for i := 0 to |listed|
      invariant forall k :: k in keys <==> exists j :: 0 <= j < i && KeptKey(listed[j], securitys, k)
    {
      if !listed[i].egress && Wanted(listed[i], securitys) {
        assert KeptKey(listed[i], securitys, KeyOf(AwsParts(listed[i])));
        keys := keys + [KeyOf(AwsParts(listed[i]))];
      }
    }
  }

  predicate KeptKey(r: AwsRule, securitys: seq<Security>, k: string) {
    !r.egress && Wanted(r, securitys) && k == KeyOf(AwsParts(r))
  }

  lemma {:induction false} ExistingIsPresent(rules: set<AwsRule>, securitys: seq<Security>, listed: seq<AwsRule>, keys: seq<string>)
    requires forall r :: r in listed <==> r in rules
    requires forall k :: k in keys <==> exists j :: 0 <= j < |listed| && KeptKey(listed[j], securitys, k)
    ensures forall i :: 0 <= i < |securitys| ==> (KeyOf(Parts(securitys[i])) in keys <==> Present(rules, securitys[i]))
  {
  }

  /** What the first n wanted rules ask to authorize. */
  function MissingAmong(was: set<AwsRule>, securitys: seq<Security>, n: nat): set<AwsRule>
    requires n <= |securitys|
  {
    set k | 0 <= k < n && !Present(was, securitys[k]) :: ToAws(securitys[k])
  }

  lemma {:induction false} MissingStep(was: set<AwsRule>, securitys: seq<Security>, n: nat)
    requires n < |securitys|
    ensures MissingAmong(was, securitys, n + 1)
            == MissingAmong(was, securitys, n) + if Present(was, securitys[n]) then {} else {ToAws(securitys[n])}
    ensures !Present(was, securitys[n]) ==> ToAws(securitys[n]) in ToAuthorize(was, securitys)
  {
  }

  /** The next wish clashes exactly if its rule is there by then. */
  lemma {:induction false} ClashStep(was: set<AwsRule>, kept: set<AwsRule>, securitys: seq<Security>, n: nat)
    requires n < |securitys| && NoClashUpTo(was, kept, securitys, n)
    ensures NoClashUpTo(was, kept, securitys, n + 1)
            <==> Present(was, securitys[n]) || ToAws(securitys[n]) !in kept + MissingAmong(was, securitys, n)
    ensures !NoClashUpTo(was, kept, securitys, n + 1) ==> !NoClashUpTo(was, kept, securitys, |securitys|)
  {
  }

  method AuthorizeMissing(g: AwsGroup, securitys: seq<Security>, keys: seq<string>, ghost was: set<AwsRule>) returns (ok: bool)
    requires forall i :: 0 <= i < |securitys| ==> (KeyOf(Parts(securitys[i])) in keys <==> Present(was, securitys[i]))
    modifies g
    ensures ok ==> g.rules == old(g.rules) + ToAuthorize(was, securitys)
    ensures !g.faulty ==> (ok <==> NoClashUpTo(was, old(g.rules), securitys, |securitys|))
    ensures old(g.calls) <= g.calls
    ensures forall i :: |old(g.calls)| <= i < |g.calls| ==> PlannedCall(g.calls[i], was, securitys)
  {
    ghost var start, before := g.rules, g.calls;
    assert MissingAmong(was, securitys, 0) == {};
    for i := 0 to |securitys|
      invariant g.rules == start + MissingAmong(was, securitys, i)
      invariant NoClashUpTo(was, start, securitys, i)
      invariant before <= g.calls
      invariant forall k :: |before| <= k < |g.calls| ==> PlannedCall(g.calls[k], was, securitys)
    {
      MissingStep(was, securitys, i);
      ClashStep(was, start, securitys, i);
      if KeyOf(Parts(securitys[i])) !in keys {
        ok := g.AuthorizeIngress(ToAws(securitys[i]));
        if !ok {
          return;
        }
      }
    }
    assert MissingAmong(was, securitys, |securitys|) == ToAuthorize(was, securitys);
    ok := true;
  }

  // ---------- convergence ----------

  predicate UpperCase(s: Security) { Upper(s.protocol) == s.protocol }

  predicate CleanWish(securitys: seq<Security>) {
    forall i :: 0 <= i < |securitys| ==> Dashless(securitys[i]) && UpperCase(securitys[i])
  }

  /** AWS lists protocols in lower case. */
  predicate LowerCase(rules: set<AwsRule>) { forall r :: r in rules ==> Lower(r.protocol) == r.protocol }

  function Ingress(rules: set<AwsRule>): set<AwsRule> { set r | r in rules && !r.egress }

  function Egress(rules: set<AwsRule>): set<AwsRule> { set r | r in rules && r.egress }

  function WantedSet(securitys: seq<Security>): set<AwsRule> { set i | 0 <= i < |securitys| :: ToAws(securitys[i]) }

  lemma {:induction false} KeyIsEquality(r: AwsRule, s: Security)
    requires Dashless(s) && UpperCase(s) && Lower(r.protocol) == r.protocol && !r.egress
    ensures SameKey(r, s) <==> r == ToAws(s)
  {
    JoinedKeyDecides(Parts(s), AwsParts(r), '-');
    LowerOfUpper(r.protocol, s.protocol);
    var a, b := Parts(s), AwsParts(r);
    if a == b {
      assert a[0] == b[0] && a[1] == b[1] && a[2] == b[2];
      PortTextInjective(s.startPort, s.endPort, r.fromPort, r.toPort);
    }
  }

  /** With clean wishes the planned revocations and authorizations are the two set differences. */
  lemma {:induction false} PlanIsDifference(rules: set<AwsRule>, securitys: seq<Security>)
    requires CleanWish(securitys) && LowerCase(rules)
    ensures ToRevoke(rules, securitys) == Ingress(rules) - WantedSet(securitys)
    ensures ToAuthorize(rules, securitys) == WantedSet(securitys) - Ingress(rules)
  {
    forall r | r in Ingress(rules) ensures Wanted(r, securitys) <==> r in WantedSet(securitys) {
      forall i | 0 <= i < |securitys| ensures SameKey(r, securitys[i]) <==> r == ToAws(securitys[i]) {
        KeyIsEquality(r, securitys[i]);
      }
    }
    forall i | 0 <= i < |securitys| ensures Present(rules, securitys[i]) <==> ToAws(securitys[i]) in Ingress(rules) {
      forall r | r in Ingress(rules) ensures SameKey(r, securitys[i]) <==> r == ToAws(securitys[i]) {
        KeyIsEquality(r, securitys[i]);
      }
    }
  }

  /**
   Reconciliation converges: what a successful run leaves is the wanted ingress set and the old
   egress rules; rules on both sides are neither revoked nor authorized again; and from the
   wanted set no call is planned.
   */
  lemma {:induction false} RulesConverge(rules: set<AwsRule>, securitys: seq<Security>)
    requires CleanWish(securitys) && LowerCase(rules)
    ensures var after := rules - ToRevoke(rules, securitys) + ToAuthorize(rules, securitys);
            && Ingress(after) == WantedSet(securitys)
            && Egress(after) == Egress(rules)
            && LowerCase(after)
    ensures forall r :: r in Ingress(rules) && r in WantedSet(securitys) ==>
                          !PlannedCall(Revoke(r), rules, securitys) && !PlannedCall(Authorize(r), rules, securitys)
    ensures Ingress(rules) == WantedSet(securitys) ==> forall c :: !PlannedCall(c, rules, securitys)
  {
    PlanIsDifference(rules, securitys);
    forall r | r in WantedSet(securitys) ensures Lower(r.protocol) == r.protocol && !r.egress {
      var i :| 0 <= i < |securitys| && r == ToAws(securitys[i]);
      LowerTwice(securitys[i].protocol);
    }
  }

  lemma {:induction false} LowerTwice(p: string)
    ensures Lower(Lower(p)) == Lower(p)
  {
  }

  lemma {:induction false} SomePlanned(before: seq<AwsCall>, after: seq<AwsCall>, rules: set<AwsRule>, securitys: seq<Security>)
    requires |before| < |after|
    requires forall i :: |before| <= i < |after| ==> PlannedCall(after[i], rules, securitys)
    ensures exists c :: PlannedCall(c, rules, securitys)
  {
    assert PlannedCall(after[|before|], rules, securitys);
  }

  /** From the wanted set, a run makes no call that changes anything, whether or not it can list the rules. */
  method ManageAwsRulesAgain(g: AwsGroup, securitys: seq<Security>) returns (ok: bool)
    requires CleanWish(securitys) && LowerCase(g.rules) && Ingress(g.rules) == WantedSet(securitys)
    modifies g
    ensures g.calls == old(g.calls)
    ensures ok ==> g.rules == old(g.rules)
  {
    ok := ManageAwsRules(g, securitys);
    PlanIsDifference(old(g.rules), securitys);
    if |g.calls| > |old(g.calls)| {
      SomePlanned(old(g.calls), g.calls, old(g.rules), securitys);
      RulesConverge(old(g.rules), securitys);
    }
  }

  lemma {:induction false} UpperTwice(p: string)
    ensures Upper(Upper(p)) == Upper(p)
  {
  }

  /** A dashless wish whose protocol is not in upper case is matched by no rule. */
  lemma {:induction false} NoRuleMatches(rules: set<AwsRule>, s: Security)
    requires Dashless(s) && !UpperCase(s)
    ensures !Present(rules, s)
  {
    forall r | r in rules ensures !SameKey(r, s) {
      JoinedKeyDecides(Parts(s), AwsParts(r), '-');
      UpperTwice(r.protocol);
      assert AwsParts(r)[0] == Upper(r.protocol) && Parts(s)[0] == s.protocol;
    }
  }

  /** Once the wanted set is reached with dashless wishes, runs are quiet exactly when every wished protocol is in upper case. */
  lemma {:induction false} QuietIffUpperCase(rules: set<AwsRule>, securitys: seq<Security>)
    requires (forall i :: 0 <= i < |securitys| ==> Dashless(securitys[i])) && LowerCase(rules) && Ingress(rules) == WantedSet(securitys)
    ensures (forall c :: !PlannedCall(c, rules, securitys)) <==> forall i :: 0 <= i < |securitys| ==> UpperCase(securitys[i])
  {
    if i :| 0 <= i < |securitys| && !UpperCase(securitys[i]) {
      NoRuleMatches(rules, securitys[i]);
      assert PlannedCall(Authorize(ToAws(securitys[i])), rules, securitys);
    } else {
      RulesConverge(rules, securitys);
    }
  }

  /** With a lower-case wish the key never matches, so the rule is revoked and authorized again in every run. */
  lemma {:induction false} LowerCaseWishNeverRests(s: Security)
    requires Dashless(s) && Upper(s.protocol) != s.protocol && Lower(s.protocol) == s.protocol
    ensures PlannedCall(Revoke(ToAws(s)), {ToAws(s)}, [s]) && PlannedCall(Authorize(ToAws(s)), {ToAws(s)}, [s])
  {
    var r := ToAws(s);
    JoinedKeyDecides(Parts(s), AwsParts(r), '-');
    assert AwsParts(r)[0] == Upper(s.protocol) && Parts(s)[0] == s.protocol;
    assert !SameKey(r, s);
    assert forall i :: 0 <= i < |[s]| ==> [s][i] == s;
    assert !Present({r}, [s][0]);
    assert ToAws([s][0]) in ToAuthorize({r}, [s]);
  }
}
