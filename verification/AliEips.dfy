/** Settling one elastic address per availability zone on Ali. */
module AliEips {
  import opened Wrappers
  import opened Registry
  import opened RegistryFacts
  import opened AliClouds
  import AliSubnets

  function EipName(cluster: string, zone: string): string { cluster + "-" + zone + "-eip" }

  // ---------- what a run aims at ----------

  /** Every availability zone has an entry of the type that is tagged with it. */
  ghost predicate ZonesServed(rs: Resources, zones: Resources, kind: ResourceType) {
    forall i :: 0 <= i < |zones| ==> Has(rs, InZone(kind, zones[i].refId))
  }

  ghost predicate EipsSettled(rs: Resources, w: World) {
    && AllListed(rs, ELASTIC_IP, EipIds(w.eips))
    && ZonesServed(rs, OfType(rs, AVAILABILITY_ZONES), ELASTIC_IP)
  }

  /** No two entries of the type are tagged with the same zone. */
  predicate DistinctZones(rs: Resources, kind: ResourceType) {
    forall i, j :: 0 <= i < j < |rs| && rs[i].kind == kind && rs[j].kind == kind && rs[i].tags.zone.Some? ==>
                     rs[i].tags.zone != rs[j].tags.zone
  }

  ghost predicate OneToOne(rs: Resources) {
    DistinctRefs(rs, ELASTIC_IP) && DistinctZones(rs, ELASTIC_IP)
  }

  /** A zone that has an address then has exactly one, listed, and shared with no other entry. */
  lemma {:induction false} ExactlyOneAddress(rs: Resources, zone: string, listed: set<string>)
    requires OneToOne(rs) && Has(rs, InZone(ELASTIC_IP, zone)) && AllListed(rs, ELASTIC_IP, listed)
    ensures exists i :: 0 <= i < |rs| && Matches(rs[i], InZone(ELASTIC_IP, zone)) && rs[i].refId in listed
                        && (forall j :: 0 <= j < |rs| && Matches(rs[j], InZone(ELASTIC_IP, zone)) ==> j == i)
                        && (forall j :: 0 <= j < |rs| && rs[j].kind == ELASTIC_IP && rs[j].refId == rs[i].refId ==> j == i)
  {
    var i := FindIndex(rs, InZone(ELASTIC_IP, zone));
    assert rs[i] in rs;
  }

  /** Where a recorded address comes from: it was recorded before, or it was free and unrecorded when listed, or it is new. */
  ghost predicate Sourced(r: CloudResource, was: Resources, listing: seq<Eip>) {
    || r in was
    || (exists e :: e in listing && e.id == r.refId && e.instance == "" && !Registered(was, ELASTIC_IP, e.id))
    || r.refId !in EipIds(listing)
  }

  /** What the loop over the zones has done so far. */
  ghost predicate Serving(cluster: string, was: Resources, now: Resources, listing: seq<Eip>, eips: seq<Eip>) {
    && OthersKept(was, now, ELASTIC_IP)
    && was <= now && listing <= eips
    && AllListed(now, ELASTIC_IP, EipIds(eips))
    && (forall r :: r in now && r.kind == ELASTIC_IP ==> Sourced(r, was, listing))
    && (forall r :: r in now ==> r in was || EipRecord(r, cluster, eips))
    && (OneToOne(was) ==> OneToOne(now))
  }

  /** An entry as the code records it: named after and tagged with its zone, with the address of the listed id. */
  ghost predicate EipRecord(r: CloudResource, cluster: string, eips: seq<Eip>) {
    && r.kind == ELASTIC_IP && r.tags.zone.Some?
    && r.name == EipName(cluster, r.tags.zone.value) && r.tags == Tags(Some(r.name), None, r.tags.zone)
    && exists e :: e in eips && e.id == r.refId && e.ip == r.value
  }

  lemma {:induction false} EipRecordsGrow(cluster: string, was: Resources, now: Resources, eips: seq<Eip>, more: seq<Eip>)
    requires eips <= more && forall r :: r in now ==> r in was || EipRecord(r, cluster, eips)
    ensures forall r :: r in now ==> r in was || EipRecord(r, cluster, more)
  {
    assert forall e :: e in eips ==> e in more;
  }

  lemma {:induction false} ServingStart(cluster: string, was: Resources, listing: seq<Eip>)
    requires AllListed(was, ELASTIC_IP, EipIds(listing))
    ensures Serving(cluster, was, was, listing, listing)
  {
  }

  lemma {:induction false} NewIsOneToOne(rs: Resources, r: CloudResource)
    requires OneToOne(rs) && r.kind == ELASTIC_IP && r.tags.zone.Some?
    requires !Registered(rs, ELASTIC_IP, r.refId) && !Has(rs, InZone(ELASTIC_IP, r.tags.zone.value))
    ensures OneToOne(rs + [r])
  {
  }

  lemma {:induction false} IdsGrow(a: seq<Eip>, b: seq<Eip>)
    requires a <= b
    ensures EipIds(a) <= EipIds(b)
  {
  }

  /** The zone had no address and gets r, which no entry had. */
  lemma {:induction false} ServingStep(cluster: string, was: Resources, mid: Resources, r: CloudResource, listing: seq<Eip>, eips: seq<Eip>, eips': seq<Eip>)
    requires Serving(cluster, was, mid, listing, eips) && eips <= eips'
    requires r.kind == ELASTIC_IP && r.tags.zone.Some? && r.refId in EipIds(eips') && Sourced(r, was, listing)
    requires EipRecord(r, cluster, eips')
    requires !Registered(mid, ELASTIC_IP, r.refId) && !Has(mid, InZone(ELASTIC_IP, r.tags.zone.value))
    ensures Serving(cluster, was, mid + [r], listing, eips')
  {
    AddKeepsOthers(mid, r);
    IdsGrow(eips, eips');
    EipRecordsGrow(cluster, was, mid, eips, eips');
    if OneToOne(was) {
      NewIsOneToOne(mid, r);
    }
  }

  lemma {:induction false} ServingLeak(cluster: string, was: Resources, mid: Resources, listing: seq<Eip>, eips: seq<Eip>, eips': seq<Eip>)
    requires Serving(cluster, was, mid, listing, eips) && eips <= eips'
    ensures Serving(cluster, was, mid, listing, eips')
  {
  }

  // ---------- the run ----------

  method RecordEip(reg: CloudRegistry, zone: string, e: Eip, ghost was: Resources, ghost listing: seq<Eip>, ghost eips: seq<Eip>, ghost eips': seq<Eip>)
    requires Serving(reg.clusterName, was, reg.resources, listing, eips) && eips <= eips' && e in eips'
    requires (e in listing && e.instance == "") || e.id !in EipIds(listing)
    requires !Registered(reg.resources, ELASTIC_IP, e.id) && !Has(reg.resources, InZone(ELASTIC_IP, zone))
    modifies reg`resources
    ensures Serving(reg.clusterName, was, reg.resources, listing, eips') && old(reg.resources) <= reg.resources
    ensures Has(reg.resources, InZone(ELASTIC_IP, zone))
  {
    ghost var mid := reg.resources;
    var name := EipName(reg.clusterName, zone);
    var r := CloudResource("", name, e.id, "", ELASTIC_IP, Tags(Some(name), None, Some(zone)), e.ip);
    ghost var key := AliSubnets.Record(reg, r);
    RegisteredBefore(was, mid, e.id);
    ServingStep(reg.clusterName, was, mid, r.(id := key), listing, eips, eips');
    NewIsFound(mid, r.(id := key), InZone(ELASTIC_IP, zone));
  }

  lemma {:induction false} RegisteredBefore(was: Resources, now: Resources, refId: string)
    requires was <= now && !Registered(now, ELASTIC_IP, refId)
    ensures !Registered(was, ELASTIC_IP, refId)
  {
  }

  /** The inner loop: a listed address that is neither in use nor recorded is taken, unless the zone has one already. */
  method AdoptEip(reg: CloudRegistry, zone: string, listing: seq<Eip>, ghost was: Resources, ghost eips: seq<Eip>) returns (adopted: seq<string>)
    requires Serving(reg.clusterName, was, reg.resources, listing, eips)
    modifies reg`resources
    ensures Serving(reg.clusterName, was, reg.resources, listing, eips) && old(reg.resources) <= reg.resources
    ensures adopted == [] ==> reg.resources == old(reg.resources)
    ensures adopted != [] ==> Has(reg.resources, InZone(ELASTIC_IP, zone))
    ensures Has(old(reg.resources), InZone(ELASTIC_IP, zone)) ==> adopted == []
    // A new address is only asked for when none of the listed ones is free.
    ensures adopted == [] && !Has(reg.resources, InZone(ELASTIC_IP, zone)) ==>
              forall e :: e in listing ==> e.instance != "" || Registered(reg.resources, ELASTIC_IP, e.id)
  {
    adopted := [];
    for i := 0 to |listing|
      invariant reg.resources == old(reg.resources) && adopted == []
      invariant forall e :: e in listing[..i] ==> e.instance != "" || Registered(reg.resources, ELASTIC_IP, e.id)
    {
      var e := listing[i];
      assert listing[..i + 1] == listing[..i] + [e];
      if e.instance == "" && ByRef(reg.resources, ELASTIC_IP, e.id).None? {
        if !Has(reg.resources, InZone(ELASTIC_IP, zone)) {
          assert e in listing && e in eips;
          RecordEip(reg, zone, e, was, listing, eips, eips);
          adopted := [e.id];
        }
        return;
      }
    }
    assert listing[..|listing|] == listing;
  }

  /** One zone's turn. used lists the ids whose readiness is awaited in the end. */
  method ServeZone(reg: CloudRegistry, cloud: AliCloud, zone: string, listing: seq<Eip>, ghost was: Resources) returns (ok: bool, used: seq<string>)
    requires Serving(reg.clusterName, was, reg.resources, listing, cloud.world.eips)
    modifies reg`resources, cloud
    ensures Serving(reg.clusterName, was, reg.resources, listing, cloud.world.eips) && old(reg.resources) <= reg.resources
    ensures cloud.world == old(cloud.world).(eips := cloud.world.eips)
    ensures ok ==> Has(reg.resources, InZone(ELASTIC_IP, zone))
    ensures Has(old(reg.resources), InZone(ELASTIC_IP, zone)) ==>
              ok && used == [] && reg.resources == old(reg.resources) && cloud.world == old(cloud.world) && cloud.calls == old(cloud.calls)
    ensures !cloud.faulty ==> ok
  {
    used := AdoptEip(reg, zone, listing, was, cloud.world.eips);
    if Has(reg.resources, InZone(ELASTIC_IP, zone)) {
      return true, used;
    }
    ghost var eips := cloud.world.eips;
    var eip := cloud.AllocateEip();
    if eip.None? {
      return false, used;
    }
    ghost var eips' := cloud.world.eips;
    used := used + [eip.value.id];
    NewIsUnrecorded(reg.clusterName, was, reg.resources, listing, eips, eip.value);
    ok := cloud.TagResource(eip.value.id);
    if !ok {
      ServingLeak(reg.clusterName, was, reg.resources, listing, eips, eips');
      return;
    }
    RecordEip(reg, zone, eip.value, was, listing, eips, eips');
  }

  lemma {:induction false} NewIsUnrecorded(cluster: string, was: Resources, now: Resources, listing: seq<Eip>, eips: seq<Eip>, e: Eip)
    requires Serving(cluster, was, now, listing, eips) && e.id !in EipIds(eips)
    ensures !Registered(now, ELASTIC_IP, e.id) && e.id !in EipIds(listing) && e in eips + [e]
  {
  }

  method ServeZones(reg: CloudRegistry, cloud: AliCloud, listing: seq<Eip>) returns (ok: bool, used: seq<string>)
    requires listing == cloud.world.eips && AllListed(reg.resources, ELASTIC_IP, EipIds(listing))
    modifies reg`resources, cloud
    ensures Serving(reg.clusterName, old(reg.resources), reg.resources, listing, cloud.world.eips)
    ensures cloud.world == old(cloud.world).(eips := cloud.world.eips)
    ensures ok ==> ZonesServed(reg.resources, OfType(reg.resources, AVAILABILITY_ZONES), ELASTIC_IP)
    ensures ZonesServed(old(reg.resources), OfType(old(reg.resources), AVAILABILITY_ZONES), ELASTIC_IP) ==>
              ok && used == [] && reg.resources == old(reg.resources) && cloud.world == old(cloud.world) && cloud.calls == old(cloud.calls)
    ensures !cloud.faulty ==> ok
  {
    ghost var was := reg.resources;
    var zones := OfType(reg.resources, AVAILABILITY_ZONES);
    ghost var nothingToDo := ZonesServed(was, zones, ELASTIC_IP);
    used := [];
    ServingStart(reg.clusterName, was, listing);
    for i := 0 to |zones|
      invariant zones == OfType(reg.resources, AVAILABILITY_ZONES)
      invariant Serving(reg.clusterName, was, reg.resources, listing, cloud.world.eips)
      invariant cloud.world == old(cloud.world).(eips := cloud.world.eips)
      invariant ZonesServed(reg.resources, zones[..i], ELASTIC_IP)
      invariant nothingToDo ==> used == [] && reg.resources == was && cloud.world == old(cloud.world) && cloud.calls == old(cloud.calls)
    {
      ghost var mid := reg.resources;
      var more;
      ok, more := ServeZone(reg, cloud, zones[i].refId, listing, was);
      used := used + more;
      if !ok {
        return;
      }
      ServedStays(mid, reg.resources, zones, i, ELASTIC_IP);
    }
    assert zones[..|zones|] == zones;
    ok := true;
  }

  lemma {:induction false} ServedStays(was: Resources, now: Resources, zones: Resources, i: nat, kind: ResourceType)
    requires was <= now && i < |zones| && ZonesServed(was, zones[..i], kind)
    requires Has(now, InZone(kind, zones[i].refId))
    ensures ZonesServed(now, zones[..i + 1], kind)
  {
  }

  /** Prunes addresses the cloud no longer has, then gives each zone one: a free one if listed, else a new one. */
  method CreateEips(reg: CloudRegistry, cloud: AliCloud) returns (ok: bool)
    modifies reg`resources, cloud
    ensures OthersKept(old(reg.resources), reg.resources, ELASTIC_IP)
    ensures cloud.world == old(cloud.world).(eips := cloud.world.eips)
    ensures ok ==> EipsSettled(reg.resources, cloud.world)
    ensures OneToOne(old(reg.resources)) ==> OneToOne(reg.resources)
    ensures forall r :: r in reg.resources && r.kind == ELASTIC_IP ==> Sourced(r, old(reg.resources), old(cloud.world.eips))
    ensures forall r :: r in reg.resources ==> r in old(reg.resources) || EipRecord(r, reg.clusterName, cloud.world.eips)
    ensures EipsSettled(old(reg.resources), old(cloud.world)) ==>
              reg.resources == old(reg.resources) && cloud.world == old(cloud.world) && cloud.calls == old(cloud.calls)
    ensures !cloud.faulty ==> ok
  {
    ok := cloud.Reachable();
    if !ok {
      return;
    }
    ghost var was := reg.resources;
    var listing := cloud.world.eips;
    PrunedIsLive(was, ELASTIC_IP, EipIds(listing));
    PrunedOneToOne(was, EipIds(listing));
    reg.Prune(ELASTIC_IP, EipIds(listing));
    ghost var pruned := reg.resources;
    var used;
    ok, used := ServeZones(reg, cloud, listing);
    SourcedBefore(was, pruned, reg.resources, listing);
    if ok && used != [] {
      ok := cloud.Reachable();  // until they are available
    }
  }

  lemma {:induction false} DistinctZonesAfterRemove(rs: Resources, gone: set<CloudResource>, kind: ResourceType)
    requires DistinctZones(rs, kind)
    ensures DistinctZones(Remove(rs, gone), kind)
  {
    assert DistinctBy(rs, kind, ZoneKey);
    RemoveKeepsDistinctBy(rs, gone, kind, ZoneKey);
    assert forall r: CloudResource :: ZoneKey(r) == r.tags.zone;
  }

  lemma {:induction false} PrunedOneToOne(rs: Resources, listed: set<string>)
    ensures OneToOne(rs) ==> OneToOne(Pruned(rs, ELASTIC_IP, listed))
  {
    if OneToOne(rs) {
      var gone := Stale(rs, ELASTIC_IP, listed, Refs(rs, ELASTIC_IP));
      RemoveKeepsDistinct(rs, gone, ELASTIC_IP);
      DistinctZonesAfterRemove(rs, gone, ELASTIC_IP);
    }
  }

  /** Pruning drops no listed entry, so what was unrecorded after it was unrecorded before. */
  lemma {:induction false} SourcedBefore(was: Resources, pruned: Resources, now: Resources, listing: seq<Eip>)
    requires forall r :: r in pruned ==> r in was
    requires forall r :: r in was && r.kind == ELASTIC_IP && r.refId in EipIds(listing) ==> r in pruned
    requires forall r :: r in now && r.kind == ELASTIC_IP ==> Sourced(r, pruned, listing)
    ensures forall r :: r in now && r.kind == ELASTIC_IP ==> Sourced(r, was, listing)
  {
  }
}
