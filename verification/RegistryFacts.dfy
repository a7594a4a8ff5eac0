/** What provisioning one type of resource leaves alone: every search for another type. */
module RegistryFacts {
  import opened Wrappers
  import opened Registry

  /** GetCloudResourceByRefID: the first resource of the type with the reference. */
  function ByRef(rs: Resources, kind: ResourceType, refId: string): (r: Option<CloudResource>)
    ensures r.Some? <==> Registered(rs, kind, refId)
    ensures r.Some? ==> r.value in rs && r.value.kind == kind && r.value.refId == refId
  {
    if rs == [] then None
    else if rs[0].kind == kind && rs[0].refId == refId then Some(rs[0])
    else
      assert forall r :: r in rs <==> r == rs[0] || r in rs[1..];
      ByRef(rs[1..], kind, refId)
  }

  /** Two resources of the type never share a reference. */
  predicate DistinctRefs(rs: Resources, kind: ResourceType) {
    forall i, j :: 0 <= i < j < |rs| && rs[i].kind == kind && rs[j].kind == kind ==> rs[i].refId != rs[j].refId
  }

  /** Only resources of the one type were added, changed or removed. */
  ghost predicate OthersKept(was: Resources, now: Resources, kind: ResourceType) {
    forall k :: k != kind ==> OfType(now, k) == OfType(was, k)
  }

  lemma {:induction false} FindOfType(rs: Resources, q: Query)
    ensures Find(rs, q) == Find(OfType(rs, q.kind), q)
    ensures Has(rs, q) <==> Has(OfType(rs, q.kind), q)
  {
    if rs != [] {
      FindOfType(rs[1..], q);
      if rs[0].kind == q.kind {
        assert OfType(rs, q.kind)[1..] == OfType(rs[1..], q.kind);
      }
    }
  }

  lemma {:induction false} ByRefOfType(rs: Resources, kind: ResourceType, refId: string)
    ensures ByRef(rs, kind, refId) == ByRef(OfType(rs, kind), kind, refId)
  {
    if rs != [] {
      ByRefOfType(rs[1..], kind, refId);
      if rs[0].kind == kind {
        assert OfType(rs, kind)[1..] == OfType(rs[1..], kind);
      }
    }
  }

  lemma {:induction false} FindKept(was: Resources, now: Resources, q: Query)
    requires OfType(now, q.kind) == OfType(was, q.kind)
    ensures Find(now, q) == Find(was, q) && (Has(now, q) <==> Has(was, q))
  {
    FindOfType(was, q);
    FindOfType(now, q);
  }

  lemma {:induction false} ByRefKept(was: Resources, now: Resources, kind: ResourceType, refId: string)
    requires OfType(now, kind) == OfType(was, kind)
    ensures ByRef(now, kind, refId) == ByRef(was, kind, refId)
    ensures Registered(now, kind, refId) <==> Registered(was, kind, refId)
  {
    ByRefOfType(was, kind, refId);
    ByRefOfType(now, kind, refId);
  }

  lemma {:induction false} MembersKept(was: Resources, now: Resources, kind: ResourceType)
    requires OfType(now, kind) == OfType(was, kind)
    ensures forall r: CloudResource :: r.kind == kind ==> (r in now <==> r in was)
  {
  }

  // ---------- adding, pruning and changing in place ----------

  lemma {:induction false} AddKeepsOthers(rs: Resources, r: CloudResource)
    ensures OthersKept(rs, rs + [r], r.kind)
    ensures forall refId :: Registered(rs, r.kind, refId) ==> Registered(rs + [r], r.kind, refId)
    ensures Registered(rs + [r], r.kind, r.refId)
  {
    forall k | k != r.kind ensures OfType(rs + [r], k) == OfType(rs, k) {
      OfTypeConcat(rs, [r], k);
    }
    assert r in rs + [r];
  }

  lemma {:induction false} NewIsFound(rs: Resources, r: CloudResource, q: Query)
    requires Matches(r, q)
    ensures Has(rs + [r], q)
  {
    HasIff(rs + [r], q);
    assert r in rs + [r];
  }

  lemma {:induction false} AddKeepsDistinct(rs: Resources, r: CloudResource)
    requires DistinctRefs(rs, r.kind) && !Registered(rs, r.kind, r.refId)
    ensures DistinctRefs(rs + [r], r.kind)
  {
  }

  lemma {:induction false} NoMembers(rs: Resources)
    ensures rs == [] || exists r :: r in rs
  {
    assert rs == [] || rs[0] in rs;
  }

  lemma {:induction false} RemoveWholeType(rs: Resources, kind: ResourceType)
    ensures var out := Remove(rs, WithKind(rs, kind)); OfType(out, kind) == [] && OthersKept(rs, out, kind)
  {
    var out := OfType(Remove(rs, WithKind(rs, kind)), kind);
    assert forall r :: r in out ==> r in rs && r.kind == kind && r !in WithKind(rs, kind);
    NoMembers(out);
    forall k | k != kind ensures OfType(Remove(rs, WithKind(rs, kind)), k) == OfType(rs, k) {
      OfTypeRemove(rs, WithKind(rs, kind), k);
    }
  }

  /** Entries of the type differ in the key, where they have one. */
  ghost predicate DistinctBy(rs: Resources, kind: ResourceType, key: CloudResource -> Option<string>) {
    forall i, j :: 0 <= i < j < |rs| && rs[i].kind == kind && rs[j].kind == kind && key(rs[i]).Some? ==> key(rs[i]) != key(rs[j])
  }

  function RefKey(r: CloudResource): Option<string> { Some(r.refId) }

  function ZoneKey(r: CloudResource): Option<string> { r.tags.zone }

  ghost predicate Unlike(r: CloudResource, rest: Resources, kind: ResourceType, key: CloudResource -> Option<string>) {
    r.kind == kind && key(r).Some? ==> forall x :: x in rest && x.kind == kind ==> key(x) != key(r)
  }

  lemma {:induction false} HeadUnlike(r: CloudResource, rest: Resources, kind: ResourceType, key: CloudResource -> Option<string>)
    requires DistinctBy([r] + rest, kind, key)
    ensures DistinctBy(rest, kind, key) && Unlike(r, rest, kind, key)
  {
    var all := [r] + rest;
    forall i, j | 0 <= i < j < |rest| && rest[i].kind == kind && rest[j].kind == kind && key(rest[i]).Some?
      ensures key(rest[i]) != key(rest[j])
    {
      assert all[i + 1] == rest[i] && all[j + 1] == rest[j];
    }
    forall x | x in rest && x.kind == kind && r.kind == kind && key(r).Some? ensures key(x) != key(r) {
      var j :| 0 <= j < |rest| && rest[j] == x;
      assert all[0] == r && all[j + 1] == x;
    }
  }

  lemma {:induction false} UnlikeHead(r: CloudResource, rest: Resources, kind: ResourceType, key: CloudResource -> Option<string>)
    requires DistinctBy(rest, kind, key) && Unlike(r, rest, kind, key)
    ensures DistinctBy([r] + rest, kind, key)
  {
  }

  lemma {:induction false} HeadIff(r: CloudResource, rest: Resources, kind: ResourceType, key: CloudResource -> Option<string>)
    ensures DistinctBy([r] + rest, kind, key) <==> DistinctBy(rest, kind, key) && Unlike(r, rest, kind, key)
  {
    if DistinctBy([r] + rest, kind, key) {
      HeadUnlike(r, rest, kind, key);
    }
    if DistinctBy(rest, kind, key) && Unlike(r, rest, kind, key) {
      UnlikeHead(r, rest, kind, key);
    }
  }

  lemma {:induction false} DistinctOfType(rs: Resources, kind: ResourceType, key: CloudResource -> Option<string>)
    ensures DistinctBy(rs, kind, key) <==> DistinctBy(OfType(rs, kind), kind, key)
  {
    if rs != [] {
      var rest, of := rs[1..], OfType(rs[1..], kind);
      DistinctOfType(rest, kind, key);
      assert rs == [rs[0]] + rest;
      assert Unlike(rs[0], rest, kind, key) <==> Unlike(rs[0], of, kind, key);
      HeadIff(rs[0], rest, kind, key);
      if rs[0].kind == kind {
        HeadIff(rs[0], of, kind, key);
      }
    }
  }

  lemma {:induction false} RemoveKeepsDistinctBy(rs: Resources, gone: set<CloudResource>, kind: ResourceType, key: CloudResource -> Option<string>)
    requires DistinctBy(rs, kind, key)
    ensures DistinctBy(Remove(rs, gone), kind, key)
  {
    if rs != [] {
      var rest := rs[1..];
      assert rs == [rs[0]] + rest;
      HeadIff(rs[0], rest, kind, key);
      RemoveKeepsDistinctBy(rest, gone, kind, key);
      HeadIff(rs[0], Remove(rest, gone), kind, key);
    }
  }

  lemma {:induction false} RemoveKeepsDistinct(rs: Resources, gone: set<CloudResource>, kind: ResourceType)
    requires DistinctRefs(rs, kind)
    ensures DistinctRefs(Remove(rs, gone), kind)
  {
    assert DistinctBy(rs, kind, RefKey);
    RemoveKeepsDistinctBy(rs, gone, kind, RefKey);
    assert forall r: CloudResource :: RefKey(r) == Some(r.refId);
  }

  /** Everything recorded of the type is listed. */
  predicate AllListed(rs: Resources, kind: ResourceType, listed: set<string>) {
    forall r :: r in rs && r.kind == kind ==> r.refId in listed
  }

  /** The registry after the pruning loop. */
  ghost function Pruned(rs: Resources, kind: ResourceType, listed: set<string>): Resources {
    Remove(rs, Stale(rs, kind, listed, Refs(rs, kind)))
  }

  lemma {:induction false} PrunedIsLive(rs: Resources, kind: ResourceType, listed: set<string>)
    ensures var out := Pruned(rs, kind, listed);
            && OthersKept(rs, out, kind)
            && AllListed(out, kind, listed)
            && (forall r :: r in out ==> r in rs)
            && (forall r :: r in rs && r.kind == kind && r.refId in listed ==> r in out)
            && (DistinctRefs(rs, kind) ==> DistinctRefs(out, kind))
            && (AllListed(rs, kind, listed) ==> out == rs)
  {
    var gone := Stale(rs, kind, listed, Refs(rs, kind));
    forall k | k != kind ensures OfType(Remove(rs, gone), k) == OfType(rs, k) {
      OfTypeRemove(rs, gone, k);
    }
    if DistinctRefs(rs, kind) {
      RemoveKeepsDistinct(rs, gone, kind);
    }
    if AllListed(rs, kind, listed) {
      RemoveAbsent(rs, gone);
    }
  }

  /** Changing a resource in place, its type kept. */
  lemma {:induction false} UpdateKeepsOthers(rs: Resources, i: nat, r: CloudResource)
    requires i < |rs| && r.kind == rs[i].kind
    ensures OthersKept(rs, rs[i := r], r.kind)
  {
    forall k | k != r.kind ensures OfType(rs[i := r], k) == OfType(rs, k) {
      assert rs == rs[..i] + ([rs[i]] + rs[i + 1..]);
      assert rs[i := r] == rs[..i] + ([r] + rs[i + 1..]);
      OfTypeConcat(rs[..i], [rs[i]] + rs[i + 1..], k);
      OfTypeConcat(rs[..i], [r] + rs[i + 1..], k);
      OfTypeConcat([rs[i]], rs[i + 1..], k);
      OfTypeConcat([r], rs[i + 1..], k);
    }
  }

  /** Changing neither type, reference nor tags leaves every search at its position. */
  lemma {:induction false} UpdateKeepsSearches(rs: Resources, i: nat, r: CloudResource, q: Query)
    requires i < |rs| && r.kind == rs[i].kind && r.tags == rs[i].tags
    ensures FindIndex(rs[i := r], q) == FindIndex(rs, q)
  {
    var out := rs[i := r];
    var j := FindIndex(rs, q);
    if j < |rs| {
      assert Matches(out[j], q) && forall l :: 0 <= l < j ==> !Matches(out[l], q);
      FindIndexIs(out, q, j);
    } else {
      assert forall l :: 0 <= l < |out| ==> !Matches(out[l], q);
    }
  }

  lemma {:induction false} UpdateKeepsRefs(rs: Resources, i: nat, r: CloudResource, kind: ResourceType, refId: string)
    requires i < |rs| && r.kind == rs[i].kind && r.refId == rs[i].refId
    ensures Registered(rs[i := r], kind, refId) <==> Registered(rs, kind, refId)
  {
    var out := rs[i := r];
    if Registered(rs, kind, refId) {
      var x :| x in rs && x.kind == kind && x.refId == refId;
      var j :| 0 <= j < |rs| && rs[j] == x;
      assert out[j] in out;
    }
    if Registered(out, kind, refId) {
      var x :| x in out && x.kind == kind && x.refId == refId;
      var j :| 0 <= j < |out| && out[j] == x;
      assert rs[j] in rs;
    }
  }
}
