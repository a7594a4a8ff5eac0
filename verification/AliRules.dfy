/** The rule diff of an Ali security group: rules have ids and are compared by the joined key as they stand. */
module AliRules {
  import opened Text
  import opened SecurityGroups

  /** Protocol, source range and port range of a rule. */
  type Content = parts: seq<string> | |parts| == 3 witness ["", "", ""]

  type Rules = map<string, Content>

  datatype AliCall = RevokeAll(ids: set<string>) | AuthorizeOne(parts: Content)

  function Contents(rules: Rules): set<Content> { set id | id in rules :: rules[id] }

  predicate Wanted(parts: Content, securitys: seq<Security>) {
    exists i :: 0 <= i < |securitys| && KeyOf(parts) == KeyOf(Parts(securitys[i]))
  }

  predicate Present(rules: Rules, s: Security) {
    exists id :: id in rules && KeyOf(rules[id]) == KeyOf(Parts(s))
  }

  /** What is asked for a wanted rule: its protocol in upper case. */
  function ToAli(s: Security): Content { [Upper(s.protocol), s.cidr, PortText(s.startPort, s.endPort)] }

  function Unwanted(rules: Rules, securitys: seq<Security>): set<string> {
    set id | id in rules && !Wanted(rules[id], securitys)
  }

  function Missing(rules: Rules, securitys: seq<Security>, n: nat): set<Content>
    requires n <= |securitys|
  {
    set i | 0 <= i < n && !Present(rules, securitys[i]) :: ToAli(securitys[i])
  }

  /** The old rules under their ids, and the added contents besides. */
  ghost predicate Grown(was: Rules, now: Rules, added: set<Content>) {
    && Contents(now) == Contents(was) + added
    && forall id :: id in was ==> id in now && now[id] == was[id]
  }

  /** A failed call changes nothing; authorizing what is there adds no second rule. With faulty set, any call may fail. */
  class AliGroup {
    const faulty: bool
    var rules: Rules
    var calls: seq<AliCall>

    constructor (faulty: bool, rules: Rules)
      ensures this.faulty == faulty && this.rules == rules && calls == []
    {
      this.faulty, this.rules, calls := faulty, rules, [];
    }

    method Reachable() returns (ok: bool)
      ensures !faulty ==> ok
    {
      var fail: bool := *;
      ok := !(faulty && fail);
    }

    method Revoke(ids: set<string>) returns (ok: bool)
      modifies this
      ensures calls == old(calls) + [RevokeAll(ids)]
      ensures rules == if ok then old(rules) - ids else old(rules)
      ensures !faulty ==> ok
    {
      ok := Reachable();
      calls := calls + [RevokeAll(ids)];
      if ok {
        rules := rules - ids;
      }
    }

    method Authorize(parts: Content) returns (ok: bool)
      modifies this
      ensures calls == old(calls) + [AuthorizeOne(parts)]
      ensures Grown(old(rules), rules, if ok then {parts} else {})
      ensures !faulty ==> ok
    {
      ok := Reachable();
      calls := calls + [AuthorizeOne(parts)];
      if ok && parts !in Contents(rules) {
        var newId := NewId();
        ContentsAdd(rules, newId, parts);
        rules := rules[newId := parts];
      }
    }

    method NewId() returns (id: string)
      ensures id !in rules
    {
      var given: bool, any: string := *, *;
      if given && any !in rules {
        return any;
      }
      var taken: seq<string> := [];
      var todo := rules.Keys;
      while todo != {}
        invariant forall k :: k in rules && k !in todo ==> k in taken
        decreases |todo|
      {
        var k :| k in todo;
        taken, todo := taken + [k], todo - {k};
      }
      id := Fresh(taken);
    }
  }

  lemma {:induction false} ContentsAdd(rules: Rules, id: string, parts: Content)
    requires id !in rules
    ensures Contents(rules[id := parts]) == Contents(rules) + {parts}
  {
    var out := rules[id := parts];
    forall p | p in Contents(rules) + {parts} ensures p in Contents(out) {
      if p == parts {
        assert out[id] == p;
      } else {
        var k :| k in rules && rules[k] == p;
        assert out[k] == p;
      }
    }
  }

  /** The wanted keys found in the listing, and the ids that match none. */
  method Compare(rules: Rules, securitys: seq<Security>) returns (clear: set<string>, existing: set<string>)
    ensures clear == Unwanted(rules, securitys)
    ensures forall i :: 0 <= i < |securitys| ==> (KeyOf(Parts(securitys[i])) in existing <==> Present(rules, securitys[i]))
  {
    clear, existing := {}, {};
    var todo := rules.Keys;
    while todo != {}
      invariant todo <= rules.Keys
      invariant clear == set id | id in rules.Keys - todo && !Wanted(rules[id], securitys)
      invariant existing == set id | id in rules.Keys - todo && Wanted(rules[id], securitys) :: KeyOf(rules[id])
      decreases todo
    {
      var id :| id in todo;
      if Wanted(rules[id], securitys) {
        existing := existing + {KeyOf(rules[id])};
      } else {
        clear := clear + {id};
      }
      todo := todo - {id};
    }
    forall i | 0 <= i < |securitys| && Present(rules, securitys[i]) ensures KeyOf(Parts(securitys[i])) in existing {
      var id :| id in rules && KeyOf(rules[id]) == KeyOf(Parts(securitys[i]));
      assert Wanted(rules[id], securitys);
    }
  }

  /** What a successful run makes of the rules. */
  ghost predicate Reconciled(was: Rules, now: Rules, securitys: seq<Security>) {
    && Contents(now) == Contents(was - Unwanted(was, securitys)) + Missing(was, securitys, |securitys|)
    && forall id :: id in was && Wanted(was[id], securitys) ==> id in now && now[id] == was[id]
  }

  /** The rule part of Ali ManageSecurityGroup. */
  method ManageAliRules(g: AliGroup, securitys: seq<Security>) returns (ok: bool)
    modifies g
    ensures ok ==> Reconciled(old(g.rules), g.rules, securitys)
    ensures Unwanted(old(g.rules), securitys) == {} && Missing(old(g.rules), securitys, |securitys|) == {} ==>
              g.rules == old(g.rules) && g.calls == old(g.calls)
    ensures !g.faulty ==> ok
  {
    ok := g.Reachable();
    if !ok {
      return;
    }
    ghost var was := g.rules;
    var clear, existing := Compare(g.rules, securitys);
    if clear != {} {
      ok := g.Revoke(clear);
      if !ok {
        return;
      }
    }
    assert was - Unwanted(was, securitys) == g.rules;
    ok := AuthorizeMissing(g, securitys, existing, was);
  }

  method AuthorizeMissing(g: AliGroup, securitys: seq<Security>, existing: set<string>, ghost was: Rules) returns (ok: bool)
    requires forall i :: 0 <= i < |securitys| ==> (KeyOf(Parts(securitys[i])) in existing <==> Present(was, securitys[i]))
    modifies g
    ensures ok ==> Grown(old(g.rules), g.rules, Missing(was, securitys, |securitys|))
    ensures Missing(was, securitys, |securitys|) == {} ==> g.rules == old(g.rules) && g.calls == old(g.calls)
    ensures !g.faulty ==> ok
  {
    ghost var start, idle := g.rules, Missing(was, securitys, |securitys|) == {};
    for i := 0 to |securitys|
      invariant Grown(start, g.rules, Missing(was, securitys, i))
      invariant idle ==> g.rules == start && g.calls == old(g.calls)
    {
      MissingStep(was, securitys, i);
      if KeyOf(Parts(securitys[i])) !in existing {
        NotIdle(was, securitys, i);
        ghost var mid := g.rules;
        ok := g.Authorize(ToAli(securitys[i]));
        if !ok {
          return;
        }
        GrownTwice(start, mid, g.rules, Missing(was, securitys, i), {ToAli(securitys[i])});
      }
    }
    ok := true;
  }

  lemma {:induction false} GrownTwice(a: Rules, b: Rules, c: Rules, x: set<Content>, y: set<Content>)
    requires Grown(a, b, x) && Grown(b, c, y)
    ensures Grown(a, c, x + y)
  {
  }

  lemma {:induction false} MissingStep(rules: Rules, securitys: seq<Security>, n: nat)
    requires n < |securitys|
    ensures Missing(rules, securitys, n + 1)
            == Missing(rules, securitys, n) + if Present(rules, securitys[n]) then {} else {ToAli(securitys[n])}
  {
  }

  lemma {:induction false} NotIdle(rules: Rules, securitys: seq<Security>, n: nat)
    requires n < |securitys| && !Present(rules, securitys[n])
    ensures Missing(rules, securitys, |securitys|) != {}
  {
    assert ToAli(securitys[n]) in Missing(rules, securitys, |securitys|);
  }

  function WantedContents(securitys: seq<Security>): set<Content> { set i | 0 <= i < |securitys| :: ToAli(securitys[i]) }

  /** With clean wishes the key is the content. */
  lemma {:induction false} KeyIsContent(parts: Content, s: Security)
    requires Dashless(s) && UpperCase(s)
    ensures KeyOf(parts) == KeyOf(Parts(s)) <==> parts == ToAli(s)
  {
    assert Parts(s) == ToAli(s);
    JoinedKeyDecides(Parts(s), parts, '-');
  }

  lemma {:induction false} WantedIffWished(parts: Content, securitys: seq<Security>)
    requires CleanWish(securitys)
    ensures Wanted(parts, securitys) <==> parts in WantedContents(securitys)
  {
    forall i | 0 <= i < |securitys| ensures KeyOf(parts) == KeyOf(Parts(securitys[i])) <==> parts == ToAli(securitys[i]) {
      KeyIsContent(parts, securitys[i]);
    }
  }

  /** A reconciled group holds exactly the wanted contents, its matching rules under their old ids, and asks for no further change. */
  lemma {:induction false} AliRulesConverge(was: Rules, now: Rules, securitys: seq<Security>)
    requires CleanWish(securitys) && Reconciled(was, now, securitys)
    ensures Contents(now) == WantedContents(securitys)
    ensures Unwanted(now, securitys) == {} && Missing(now, securitys, |securitys|) == {}
  {
    AliKeptIsWanted(was, securitys);
    AliAllThere(was, now, securitys);
    forall id | id in now ensures Wanted(now[id], securitys) {
      WantedIffWished(now[id], securitys);
      assert now[id] in Contents(now);
    }
    forall i | 0 <= i < |securitys| ensures Present(now, securitys[i]) {
      assert ToAli(securitys[i]) in Contents(now);
      var id :| id in now && now[id] == ToAli(securitys[i]);
      KeyIsContent(now[id], securitys[i]);
    }
  }

  /** Once the wanted contents are reached with dashless wishes, nothing is missing exactly when every wished protocol is in upper case. */
  lemma {:induction false} AliQuietIffUpperCase(rules: Rules, securitys: seq<Security>)
    requires (forall i :: 0 <= i < |securitys| ==> Dashless(securitys[i])) && Contents(rules) == WantedContents(securitys)
    ensures Missing(rules, securitys, |securitys|) == {} <==> forall i :: 0 <= i < |securitys| ==> UpperCase(securitys[i])
  {
    forall i | 0 <= i < |securitys| && !UpperCase(securitys[i]) ensures ToAli(securitys[i]) in Missing(rules, securitys, |securitys|) {
      NoContentMatches(rules, securitys, i);
    }
    forall i | 0 <= i < |securitys| && UpperCase(securitys[i]) ensures Present(rules, securitys[i]) {
      assert ToAli(securitys[i]) in Contents(rules);
      var id :| id in rules && rules[id] == ToAli(securitys[i]);
      KeyIsContent(rules[id], securitys[i]);
    }
  }

  lemma {:induction false} NoContentMatches(rules: Rules, securitys: seq<Security>, i: nat)
    requires Contents(rules) == WantedContents(securitys) && i < |securitys| && Dashless(securitys[i]) && !UpperCase(securitys[i])
    ensures !Present(rules, securitys[i])
  {
    var s := securitys[i];
    forall id | id in rules ensures KeyOf(rules[id]) != KeyOf(Parts(s)) {
      JoinedKeyDecides(Parts(s), rules[id], '-');
      assert rules[id] in Contents(rules);
      var j :| 0 <= j < |securitys| && rules[id] == ToAli(securitys[j]);
      UpperTwice(securitys[j].protocol);
      assert rules[id][0] == Upper(securitys[j].protocol) && Parts(s)[0] == s.protocol;
    }
  }

  lemma {:induction false} AliKeptIsWanted(was: Rules, securitys: seq<Security>)
    requires CleanWish(securitys)
    ensures Contents(was - Unwanted(was, securitys)) <= WantedContents(securitys)
  {
    forall id | id in was - Unwanted(was, securitys) ensures was[id] in WantedContents(securitys) {
      WantedIffWished(was[id], securitys);
    }
  }

  lemma {:induction false} AliAllThere(was: Rules, now: Rules, securitys: seq<Security>)
    requires CleanWish(securitys) && Reconciled(was, now, securitys)
    ensures WantedContents(securitys) <= Contents(now)
  {
    forall i | 0 <= i < |securitys| ensures ToAli(securitys[i]) in Contents(now) {
      if Present(was, securitys[i]) {
        var id :| id in was && KeyOf(was[id]) == KeyOf(Parts(securitys[i]));
        KeyIsContent(was[id], securitys[i]);
        assert Wanted(was[id], securitys);
        assert now[id] == ToAli(securitys[i]);
      } else {
        assert ToAli(securitys[i]) in Missing(was, securitys, |securitys|);
      }
    }
  }
}
