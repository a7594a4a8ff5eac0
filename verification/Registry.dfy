/** Cloud resources recorded with a cluster: one ordered list of all types, searched by type, reference and tags. */
module Registry {
  import opened Wrappers

  datatype ResourceType =
    | VPC | SUBNET | NAT_GATEWAY | ROUTE_TABLE | SECURITY_GROUP | LOAD_BALANCER | ELASTIC_IP
    | AVAILABILITY_ZONES | KEY_PAIR | REGION | STORAGE | INTERNET_GATEWAY

  datatype Access = PRIVATE | PUBLIC

  /** The decoded tags. Each key always holds one kind of value: a text, or for the access an enumerator. */
  datatype Tags = Tags(name: Option<string>, access: Option<Access>, zone: Option<string>)

  const NO_TAGS := Tags(None, None, None)

  datatype CloudResource = CloudResource(
    id: string, name: string, refId: string, associatedId: string,
    kind: ResourceType, tags: Tags, value: string)

  type Resources = seq<CloudResource>

  /** A search: a type and the tags that must agree; an absent tag is not compared. */
  datatype Query = Query(kind: ResourceType, name: Option<string>, access: Option<Access>, zone: Option<string>)

  function OfKind(kind: ResourceType): Query { Query(kind, None, None, None) }

  function InZone(kind: ResourceType, zone: string): Query { Query(kind, None, None, Some(zone)) }

  function Named(kind: ResourceType, name: string): Query { Query(kind, Some(name), None, None) }

  function PrivateInZone(kind: ResourceType, zone: string): Query { Query(kind, None, Some(PRIVATE), Some(zone)) }

  predicate Matches(r: CloudResource, q: Query) {
    && r.kind == q.kind
    && (q.name.Some? ==> r.tags.name == q.name)
    && (q.access.Some? ==> r.tags.access == q.access)
    && (q.zone.Some? ==> r.tags.zone == q.zone)
  }

  /** Position of the first match, or the length of the list. */
  function FindIndex(rs: Resources, q: Query): (i: nat)
    ensures i <= |rs|
    ensures forall j :: 0 <= j < i ==> !Matches(rs[j], q)
    ensures i < |rs| ==> Matches(rs[i], q)
  {
    if rs == [] then 0 else if Matches(rs[0], q) then 0 else 1 + FindIndex(rs[1..], q)
  }

  predicate Has(rs: Resources, q: Query) { FindIndex(rs, q) < |rs| }

  /** GetCloudResourceByTagsSingle and GetSingleCloudResource. */
  function Find(rs: Resources, q: Query): Option<CloudResource> {
    var i := FindIndex(rs, q);
    if i < |rs| then Some(rs[i]) else None
  }

  lemma {:induction false} FindIndexIs(rs: Resources, q: Query, i: nat)
    requires i < |rs| && Matches(rs[i], q) && forall j :: 0 <= j < i ==> !Matches(rs[j], q)
    ensures FindIndex(rs, q) == i
  {
  }

  lemma {:induction false} HasIff(rs: Resources, q: Query)
    ensures Has(rs, q) <==> exists r :: r in rs && Matches(r, q)
  {
  }

  lemma {:induction false} FindAppend(rs: Resources, more: Resources, q: Query)
    requires Has(rs, q)
    ensures FindIndex(rs + more, q) == FindIndex(rs, q) && Has(rs + more, q) && Find(rs + more, q) == Find(rs, q)
  {
    FindIndexIs(rs + more, q, FindIndex(rs, q));
  }

  /** Some resource of the type carries the reference. */
  predicate Registered(rs: Resources, kind: ResourceType, refId: string) {
    exists r :: r in rs && r.kind == kind && r.refId == refId
  }

  function Refs(rs: Resources, kind: ResourceType): set<string> {
    set r | r in rs && r.kind == kind :: r.refId
  }

  /** The list without the given resources, order kept. */
  function Remove(rs: Resources, gone: set<CloudResource>): (out: Resources)
    ensures forall r :: r in out <==> r in rs && r !in gone
  {
    if rs == [] then []
    else if rs[0] in gone then Remove(rs[1..], gone)
    else [rs[0]] + Remove(rs[1..], gone)
  }

  lemma {:induction false} RemoveNothing(rs: Resources)
    ensures Remove(rs, {}) == rs
  {
    if rs != [] {
      RemoveNothing(rs[1..]);
    }
  }

  lemma {:induction false} RemoveTwice(rs: Resources, a: set<CloudResource>, b: set<CloudResource>)
    ensures Remove(Remove(rs, a), b) == Remove(rs, a + b)
  {
    if rs != [] {
      RemoveTwice(rs[1..], a, b);
      if rs[0] !in a {
        assert Remove(rs, a)[1..] == Remove(rs[1..], a);
      }
    }
  }

  /** Removing what a list does not hold changes nothing. */
  lemma {:induction false} RemoveAbsent(rs: Resources, gone: set<CloudResource>)
    requires forall r :: r in rs ==> r !in gone
    ensures Remove(rs, gone) == rs
  {
    if rs != [] {
      assert rs[0] in rs;
      forall r | r in rs[1..] ensures r !in gone {
        assert r in rs;
      }
      RemoveAbsent(rs[1..], gone);
    }
  }

  /** Only the members of the list matter. */
  lemma {:induction false} RemoveSame(rs: Resources, a: set<CloudResource>, b: set<CloudResource>)
    requires forall r :: r in rs ==> (r in a <==> r in b)
    ensures Remove(rs, a) == Remove(rs, b)
  {
    if rs != [] {
      assert rs[0] in rs;
      forall r | r in rs[1..] ensures r in a <==> r in b {
        assert r in rs;
      }
      RemoveSame(rs[1..], a, b);
    }
  }

  /** Removing resources that do not match a search leaves its first match. */
  lemma {:induction false} FindAfterRemove(rs: Resources, gone: set<CloudResource>, q: Query)
    requires forall r :: r in gone ==> !Matches(r, q)
    ensures Find(Remove(rs, gone), q) == Find(rs, q)
  {
    if rs != [] {
      FindAfterRemove(rs[1..], gone, q);
      assert rs == [rs[0]] + rs[1..];
      if rs[0] in gone {
      } else {
        var out := Remove(rs, gone);
        assert out[0] == rs[0] && out[1..] == Remove(rs[1..], gone);
      }
    }
  }

  /** The resources of one type, in order: GetCloudResource. */
  function OfType(rs: Resources, kind: ResourceType): (out: Resources)
    ensures forall r :: r in out <==> r in rs && r.kind == kind
  {
    if rs == [] then []
    else if rs[0].kind == kind then [rs[0]] + OfType(rs[1..], kind)
    else OfType(rs[1..], kind)
  }

  lemma {:induction false} OfTypeConcat(a: Resources, b: Resources, kind: ResourceType)
    ensures OfType(a + b, kind) == OfType(a, kind) + OfType(b, kind)
  {
    if a == [] {
      assert a + b == b;
    } else {
      assert (a + b)[1..] == a[1..] + b;
      OfTypeConcat(a[1..], b, kind);
    }
  }

  lemma {:induction false} OfTypeRemove(rs: Resources, gone: set<CloudResource>, kind: ResourceType)
    requires forall r :: r in gone ==> r.kind != kind
    ensures OfType(Remove(rs, gone), kind) == OfType(rs, kind)
  {
    if rs != [] {
      OfTypeRemove(rs[1..], gone, kind);
      if rs[0] !in gone {
        assert Remove(rs, gone)[1..] == Remove(rs[1..], gone);
      }
    }
  }

  function WithKind(rs: Resources, kind: ResourceType): set<CloudResource> {
    set r | r in rs && r.kind == kind
  }

  function WithId(rs: Resources, kind: ResourceType, id: string): set<CloudResource> {
    set r | r in rs && r.kind == kind && r.id == id
  }

  function WithRef(rs: Resources, kind: ResourceType, refId: string): set<CloudResource> {
    set r | r in rs && r.kind == kind && r.refId == refId
  }

  /** The list part of a cluster that provisioning code reads and changes. */
  class CloudRegistry {
    const clusterName: string
    var resources: Resources

    constructor (name: string)
      ensures clusterName == name && resources == []
    {
      clusterName := name;
      resources := [];
    }

    method AddCloudResource(r: CloudResource)
      modifies this`resources
      ensures resources == old(resources) + [r]
    {
      resources := resources + [r];
    }

    method DeleteCloudResource(kind: ResourceType)
      modifies this`resources
      ensures resources == Remove(old(resources), WithKind(old(resources), kind))
    {
      var kept: Resources := [];
      for i := 0 to |resources|
        invariant resources == old(resources)
        invariant kept == Remove(resources[..i], WithKind(resources, kind))
      {
        RemoveConcat(resources[..i], [resources[i]], WithKind(resources, kind));
        assert resources[..i + 1] == resources[..i] + [resources[i]];
        if resources[i].kind != kind {
          kept := kept + [resources[i]];
        }
      }
      assert resources[..|resources|] == resources;
      resources := kept;
    }

    method DeleteCloudResourceByID(kind: ResourceType, id: string)
      modifies this`resources
      ensures resources == Remove(old(resources), WithId(old(resources), kind, id))
    {
      var kept: Resources := [];
      for i := 0 to |resources|
        invariant resources == old(resources)
        invariant kept == Remove(resources[..i], WithId(resources, kind, id))
      {
        RemoveConcat(resources[..i], [resources[i]], WithId(resources, kind, id));
        assert resources[..i + 1] == resources[..i] + [resources[i]];
        if !(resources[i].kind == kind && resources[i].id == id) {
          kept := kept + [resources[i]];
        }
      }
      assert resources[..|resources|] == resources;
      resources := kept;
    }

    method DeleteCloudResourceByRefID(kind: ResourceType, refId: string)
      modifies this`resources
      ensures resources == Remove(old(resources), WithRef(old(resources), kind, refId))
    {
      var kept: Resources := [];
      for i := 0 to |resources|
        invariant resources == old(resources)
        invariant kept == Remove(resources[..i], WithRef(resources, kind, refId))
      {
        RemoveConcat(resources[..i], [resources[i]], WithRef(resources, kind, refId));
        assert resources[..i + 1] == resources[..i] + [resources[i]];
        if !(resources[i].kind == kind && resources[i].refId == refId) {
          kept := kept + [resources[i]];
        }
      }
      assert resources[..|resources|] == resources;
      resources := kept;
    }

    /** The pruning loop: drops the entries of one type whose reference is not among the listed ones. */
    method Prune(kind: ResourceType, listed: set<string>)
      modifies this`resources
      ensures resources == Remove(old(resources), Stale(old(resources), kind, listed, Refs(old(resources), kind)))
    {
      var snapshot := OfType(resources, kind);
      ghost var was, done := resources, {};
      RemoveNothing(was);
      assert Stale(was, kind, listed, done) == {};
      for i := 0 to |snapshot|
        invariant resources == WithoutStale(was, kind, listed, done)
        invariant forall j :: 0 <= j < i ==> snapshot[j].refId in done
      {
        PruneOne(kind, listed, snapshot[i].refId, was, done);
        done := done + {snapshot[i].refId};
      }
      AllStale(was, kind, listed, snapshot, done);
    }

    method PruneOne(kind: ResourceType, listed: set<string>, refId: string, ghost was: Resources, ghost done: set<string>)
      requires resources == WithoutStale(was, kind, listed, done)
      modifies this`resources
      ensures resources == WithoutStale(was, kind, listed, done + {refId})
    {
      if refId !in listed {
        StaleStep(was, kind, listed, done, refId);
        DeleteCloudResourceByRefID(kind, refId);
      } else {
        ListedIsNotStale(was, kind, listed, done, refId);
      }
    }
  }

  /** The resources of one type, not listed, whose reference is in done. */
  ghost function Stale(rs: Resources, kind: ResourceType, listed: set<string>, done: set<string>): set<CloudResource> {
    set r | r in rs && r.kind == kind && r.refId !in listed && r.refId in done
  }

  ghost function WithoutStale(rs: Resources, kind: ResourceType, listed: set<string>, done: set<string>): Resources {
    Remove(rs, Stale(rs, kind, listed, done))
  }

  lemma {:induction false} AllStale(rs: Resources, kind: ResourceType, listed: set<string>, snapshot: Resources, done: set<string>)
    requires snapshot == OfType(rs, kind) && forall j :: 0 <= j < |snapshot| ==> snapshot[j].refId in done
    ensures Stale(rs, kind, listed, done) == Stale(rs, kind, listed, Refs(rs, kind))
  {
  }

  lemma {:induction false} ListedIsNotStale(rs: Resources, kind: ResourceType, listed: set<string>, done: set<string>, ref: string)
    requires ref in listed
    ensures Stale(rs, kind, listed, done + {ref}) == Stale(rs, kind, listed, done)
  {
  }

  lemma {:induction false} StaleStep(rs: Resources, kind: ResourceType, listed: set<string>, done: set<string>, ref: string)
    requires ref !in listed
    ensures var left := Remove(rs, Stale(rs, kind, listed, done));
            Remove(left, WithRef(left, kind, ref))
            == Remove(rs, Stale(rs, kind, listed, done + {ref}))
  {
    var gone := Stale(rs, kind, listed, done);
    var left := Remove(rs, gone);
    var more := WithRef(left, kind, ref);
    RemoveTwice(rs, gone, more);
    assert gone + more == Stale(rs, kind, listed, done + {ref});
  }

  lemma {:induction false} RemoveConcat(a: Resources, b: Resources, gone: set<CloudResource>)
    ensures Remove(a + b, gone) == Remove(a, gone) + Remove(b, gone)
  {
    if a == [] {
      assert a + b == b;
    } else {
      assert (a + b)[1..] == a[1..] + b;
      RemoveConcat(a[1..], b, gone);
    }
  }
}
