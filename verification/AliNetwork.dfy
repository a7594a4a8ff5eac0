/**
 The Ali network pipeline: five diff engines run in order, each pruning, adopting and creating.
 A successful run leaves a settled network; on a settled network a run asks for nothing.
 */
module AliNetworks {
  import opened Wrappers
  import opened Registry
  import opened RegistryFacts
  import opened AliClouds
  import AliSubnets
  import AliEips
  import AliNats
  import AliRoutes

  /** Registry and cloud agree in every stage: nothing to prune, adopt, create or associate. */
  ghost predicate Settled(rs: Resources, w: World, cluster: string) {
    && AliSubnets.VpcSettled(rs, w)
    && AliSubnets.SubnetsSettled(rs, w, cluster)
    && AliEips.EipsSettled(rs, w)
    && AliNats.NatsSettled(rs, w)
    && AliRoutes.RoutesSettled(rs, w)
  }

  /** The order of the registry, which every run keeps, failed ones too. */
  ghost predicate Orderly(rs: Resources) {
    AliRoutes.Orderly(rs) && AliEips.OneToOne(rs)
  }

  // ---------- what each stage leaves alone ----------

  lemma {:induction false} DistinctRefsKept(was: Resources, now: Resources, kind: ResourceType)
    requires OfType(now, kind) == OfType(was, kind) && DistinctRefs(was, kind)
    ensures DistinctRefs(now, kind)
  {
    assert DistinctBy(was, kind, RefKey);
    DistinctOfType(was, kind, RefKey);
    DistinctOfType(now, kind, RefKey);
    assert forall r: CloudResource :: RefKey(r) == Some(r.refId);
  }

  lemma {:induction false} DistinctZonesKept(was: Resources, now: Resources, kind: ResourceType)
    requires OfType(now, kind) == OfType(was, kind) && AliEips.DistinctZones(was, kind)
    ensures AliEips.DistinctZones(now, kind)
  {
    assert DistinctBy(was, kind, ZoneKey);
    DistinctOfType(was, kind, ZoneKey);
    DistinctOfType(now, kind, ZoneKey);
    assert forall r: CloudResource :: ZoneKey(r) == r.tags.zone;
  }

  /** A stage for a type other than subnets, tables and addresses keeps the order. */
  lemma {:induction false} TablesOrderKept(was: Resources, now: Resources)
    requires OfType(now, SUBNET) == OfType(was, SUBNET) && OfType(now, ROUTE_TABLE) == OfType(was, ROUTE_TABLE)
    ensures AliRoutes.Orderly(was) ==> AliRoutes.Orderly(now)
  {
    if AliRoutes.Orderly(was) {
      DistinctRefsKept(was, now, SUBNET);
      DistinctZonesKept(was, now, ROUTE_TABLE);
      MembersKept(was, now, ROUTE_TABLE);
    }
  }

  /** The subnet stage keeps it too, if it keeps references distinct. */
  lemma {:induction false} SubnetStageOrder(was: Resources, now: Resources)
    requires OfType(now, ROUTE_TABLE) == OfType(was, ROUTE_TABLE)
    requires DistinctRefs(was, SUBNET) ==> DistinctRefs(now, SUBNET)
    ensures AliRoutes.Orderly(was) ==> AliRoutes.Orderly(now)
  {
    if AliRoutes.Orderly(was) {
      DistinctZonesKept(was, now, ROUTE_TABLE);
      MembersKept(was, now, ROUTE_TABLE);
    }
  }

  lemma {:induction false} EipOrderKept(was: Resources, now: Resources)
    requires OfType(now, ELASTIC_IP) == OfType(was, ELASTIC_IP)
    ensures AliEips.OneToOne(was) ==> AliEips.OneToOne(now)
  {
    if AliEips.OneToOne(was) {
      DistinctRefsKept(was, now, ELASTIC_IP);
      DistinctZonesKept(was, now, ELASTIC_IP);
    }
  }

  lemma {:induction false} VpcStays(was: Resources, now: Resources, w: World, w': World)
    requires AliSubnets.VpcSettled(was, w) && OfType(now, VPC) == OfType(was, VPC) && w'.vpcs == w.vpcs
    ensures AliSubnets.VpcSettled(now, w')
  {
  }

  lemma {:induction false} ListedStays(was: Resources, now: Resources, kind: ResourceType, listed: set<string>)
    requires AllListed(was, kind, listed) && OfType(now, kind) == OfType(was, kind)
    ensures AllListed(now, kind, listed)
  {
  }

  lemma {:induction false} SubnetsStay(was: Resources, now: Resources, w: World, w': World, cluster: string)
    requires AliSubnets.SubnetsSettled(was, w, cluster) && w'.vswitches == w.vswitches
    requires OfType(now, VPC) == OfType(was, VPC) && OfType(now, SUBNET) == OfType(was, SUBNET)
    requires OfType(now, AVAILABILITY_ZONES) == OfType(was, AVAILABILITY_ZONES)
    ensures AliSubnets.SubnetsSettled(now, w', cluster)
  {
    FindKept(was, now, OfKind(VPC));
    var listed := SwitchesOf(w, Find(was, OfKind(VPC)).value.refId);
    ListedStays(was, now, SUBNET, SwitchIds(listed));
    forall z: string | AliSubnets.FirstIn(listed, z).Some?
      ensures Registered(now, SUBNET, SwitchId(AliSubnets.FirstIn(listed, z).value))
    {
      ByRefKept(was, now, SUBNET, SwitchId(AliSubnets.FirstIn(listed, z).value));
    }
    var zones := OfType(was, AVAILABILITY_ZONES);
    forall i | 0 <= i < |zones| ensures Has(now, Named(SUBNET, AliSubnets.SubnetName(cluster, zones[i].refId))) {
      FindKept(was, now, Named(SUBNET, AliSubnets.SubnetName(cluster, zones[i].refId)));
    }
  }

  lemma {:induction false} EipsStay(was: Resources, now: Resources, w: World, w': World)
    requires AliEips.EipsSettled(was, w) && EipIds(w'.eips) == EipIds(w.eips)
    requires OfType(now, ELASTIC_IP) == OfType(was, ELASTIC_IP) && OfType(now, AVAILABILITY_ZONES) == OfType(was, AVAILABILITY_ZONES)
    ensures AliEips.EipsSettled(now, w')
  {
  }

  lemma {:induction false} ServedStays(was: Resources, now: Resources, zone: string)
    requires OfType(now, NAT_GATEWAY) == OfType(was, NAT_GATEWAY)
    ensures AliNats.Served(was, zone) ==> AliNats.Served(now, zone)
  {
    FindKept(was, now, InZone(NAT_GATEWAY, zone));
  }

  lemma {:induction false} NatsStay(was: Resources, now: Resources, w: World, w': World)
    requires AliNats.NatsSettled(was, w) && w'.nats == w.nats && OthersKept(was, now, ROUTE_TABLE)
    ensures AliNats.NatsSettled(now, w')
  {
    FindKept(was, now, OfKind(VPC));
    var listing := NatsIn(w.nats, Find(was, OfKind(VPC)).value.refId);
    ListedStays(was, now, NAT_GATEWAY, NatIds(listing));
    forall n | n in listing ensures Registered(now, NAT_GATEWAY, n.id) || !AliNats.Adoptable(n, now) {
      ByRefKept(was, now, NAT_GATEWAY, n.id);
      AliNats.AdoptableKept(n, was, now);
    }
    var zones := OfType(was, AVAILABILITY_ZONES);
    forall i | 0 <= i < |zones| ensures AliNats.Served(now, zones[i].refId) {
      ServedStays(was, now, zones[i].refId);
    }
  }

  lemma {:induction false} ListedEipsAreNamed(rs: Resources, w: World)
    requires AliEips.EipsSettled(rs, w)
    ensures AliNats.NonEmptyEips(rs)
  {
  }

  // ---------- what a run without faults needs ----------

  /** Every subnet is recorded as the code records it, and every private table is of an availability zone. */
  ghost predicate WellTagged(rs: Resources, cluster: string) {
    && (forall r :: r in rs && r.kind == SUBNET ==> exists z :: AliSubnets.SubnetRecord(r, cluster, z))
    && (forall r :: r in rs && AliRoutes.IsPrivateTable(r) ==> AliRoutes.TableOfZone(r, rs))
  }

  /** The range has room for every zone that the listing leaves without a subnet. */
  ghost predicate RoomFor(rs: Resources, listing: seq<VSwitch>, cluster: string, range: AliSubnets.ClusterRange) {
    AliSubnets.Roomy(Pruned(rs, SUBNET, SwitchIds(listing)), AliSubnets.RefIds(OfType(rs, AVAILABILITY_ZONES)), listing, cluster, range)
  }

  lemma {:induction false} PrunedSame(was: Resources, now: Resources, listed: set<string>, cluster: string, zone: string)
    requires OfType(now, SUBNET) == OfType(was, SUBNET)
    ensures AliSubnets.IsNamed(Pruned(now, SUBNET, listed), cluster, zone) <==> AliSubnets.IsNamed(Pruned(was, SUBNET, listed), cluster, zone)
  {
    var q := Named(SUBNET, AliSubnets.SubnetName(cluster, zone));
    MembersKept(was, now, SUBNET);
    HasIff(Pruned(now, SUBNET, listed), q);
    HasIff(Pruned(was, SUBNET, listed), q);
    assert forall r :: Matches(r, q) ==> (r in Pruned(now, SUBNET, listed) <==> r in Pruned(was, SUBNET, listed));
  }

  /** The VPC stage changes nothing about the room. */
  lemma {:induction false} RoomKept(was: Resources, now: Resources, listing: seq<VSwitch>, cluster: string, range: AliSubnets.ClusterRange)
    requires OthersKept(was, now, VPC)
    ensures RoomFor(now, listing, cluster, range) <==> RoomFor(was, listing, cluster, range)
  {
    var listed := SwitchIds(listing);
    var a, b := Pruned(was, SUBNET, listed), Pruned(now, SUBNET, listed);
    MembersKept(was, now, SUBNET);
    forall z ensures AliSubnets.NamedLater(b, listing, cluster, z) <==> AliSubnets.NamedLater(a, listing, cluster, z) {
      PrunedSame(was, now, listed, cluster, z);
    }
    var zones := AliSubnets.RefIds(OfType(was, AVAILABILITY_ZONES));
    assert AliSubnets.Missing(b, zones, listing, cluster) == AliSubnets.Missing(a, zones, listing, cluster);
  }

  lemma {:induction false} TagsKept(was: Resources, now: Resources, cluster: string)
    requires WellTagged(was, cluster)
    requires OfType(now, SUBNET) == OfType(was, SUBNET) && OfType(now, ROUTE_TABLE) == OfType(was, ROUTE_TABLE)
    requires OfType(now, AVAILABILITY_ZONES) == OfType(was, AVAILABILITY_ZONES)
    ensures WellTagged(now, cluster)
  {
    MembersKept(was, now, SUBNET);
    MembersKept(was, now, ROUTE_TABLE);
  }

  lemma {:induction false} SubnetTagsKept(was: Resources, now: Resources, cluster: string, vs: seq<VSwitch>)
    requires WellTagged(was, cluster) && OthersKept(was, now, SUBNET) && AliSubnets.NewDocumented(was, now, cluster, vs)
    ensures WellTagged(now, cluster)
  {
    MembersKept(was, now, ROUTE_TABLE);
    forall r | r in now && r.kind == SUBNET && r !in was ensures exists z :: AliSubnets.SubnetRecord(r, cluster, z) {
      assert AliSubnets.Documents(r, cluster, vs);
    }
  }

  lemma {:induction false} TableTagsKept(was: Resources, now: Resources, cluster: string)
    requires WellTagged(was, cluster) && OthersKept(was, now, ROUTE_TABLE) && AliRoutes.NewTablesPrivate(was, now)
    ensures WellTagged(now, cluster)
  {
    MembersKept(was, now, SUBNET);
    forall r | r in now && AliRoutes.IsPrivateTable(r) ensures AliRoutes.TableOfZone(r, now) {
      if AliRoutes.KnownTable(r, was) {
        var o :| o in was && o.kind == ROUTE_TABLE && o.refId == r.refId && o.tags == r.tags;
        assert AliRoutes.TableOfZone(o, was);
      }
    }
  }

  /** A subnet of the zone's name is a private one of the zone. */
  lemma {:induction false} NamedIsPrivate(rs: Resources, cluster: string, zone: string)
    requires WellTagged(rs, cluster) && AliSubnets.IsNamed(rs, cluster, zone)
    ensures Has(rs, PrivateInZone(SUBNET, zone))
  {
    var q := Named(SUBNET, AliSubnets.SubnetName(cluster, zone));
    var r := rs[FindIndex(rs, q)];
    assert r in rs && Matches(r, q);
    var z :| AliSubnets.SubnetRecord(r, cluster, z);
    AliSubnets.NamesDiffer(cluster, z, zone);
    HasIff(rs, PrivateInZone(SUBNET, zone));
  }

  lemma {:induction false} VpcIsFound(rs: Resources, w: World)
    requires AliSubnets.VpcSettled(rs, w)
    ensures Find(rs, OfKind(VPC)).Some?
  {
    HasIff(rs, OfKind(VPC));
  }

  /** Once subnets and addresses are settled, the gateway stage has what it needs. */
  lemma {:induction false} NatsCanBeMade(rs: Resources, w: World, cluster: string)
    requires WellTagged(rs, cluster) && AliSubnets.SubnetsSettled(rs, w, cluster) && AliEips.EipsSettled(rs, w)
    ensures AliNats.AllSuppliable(rs)
  {
    ListedEipsAreNamed(rs, w);
    var zones := OfType(rs, AVAILABILITY_ZONES);
    forall z | z in zones ensures AliNats.Suppliable(rs, z.refId) {
      var i :| 0 <= i < |zones| && zones[i] == z;
      assert AliSubnets.IsNamed(rs, cluster, zones[i].refId) && Has(rs, InZone(ELASTIC_IP, zones[i].refId));
      NamedIsPrivate(rs, cluster, z.refId);
    }
  }

  /** Once the gateways are settled too, the table stage has what it needs. */
  lemma {:induction false} RoutesCanBeMade(rs: Resources, w: World, cluster: string, listed: set<string>)
    requires WellTagged(rs, cluster) && AliNats.NatsSettled(rs, w)
    requires AliSubnets.ZonesNamed(rs, OfType(rs, AVAILABILITY_ZONES), cluster)
    ensures AliRoutes.AllLinkable(Pruned(rs, ROUTE_TABLE, listed))
  {
    var zones := OfType(rs, AVAILABILITY_ZONES);
    forall z | z in zones ensures AliRoutes.Linkable(rs, z.refId) {
      var i :| 0 <= i < |zones| && zones[i] == z;
      assert AliSubnets.IsNamed(rs, cluster, zones[i].refId) && AliNats.Served(rs, zones[i].refId);
      NamedIsPrivate(rs, cluster, z.refId);
    }
    LinkableZones(rs, listed);
  }

  lemma {:induction false} LinkableZones(rs: Resources, listed: set<string>)
    requires forall r :: r in rs && AliRoutes.IsPrivateTable(r) ==> AliRoutes.TableOfZone(r, rs)
    requires forall z :: z in OfType(rs, AVAILABILITY_ZONES) ==> AliRoutes.Linkable(rs, z.refId)
    ensures AliRoutes.AllLinkable(Pruned(rs, ROUTE_TABLE, listed))
  {
    PrunedIsLive(rs, ROUTE_TABLE, listed);
    var pruned := Pruned(rs, ROUTE_TABLE, listed);
    forall z | z in OfType(rs, AVAILABILITY_ZONES) ensures AliRoutes.Linkable(pruned, z.refId) {
      AliRoutes.LinkableKept(rs, pruned, z.refId);
    }
    forall r | r in pruned && AliRoutes.IsPrivateTable(r) ensures AliRoutes.Linkable(pruned, AliRoutes.ZoneOf(r)) {
      var z :| z in OfType(rs, AVAILABILITY_ZONES) && z.refId == r.tags.zone.value;
    }
  }

  // ---------- the pipeline ----------

  /** The switches belong to the VPC, which is the recorded one. */
  ghost predicate MadeIn(created: seq<VSwitch>, vpcId: string, rs: Resources) {
    && Find(rs, OfKind(VPC)).Some? && Find(rs, OfKind(VPC)).value.refId == vpcId
    && forall v :: v in created ==> v.vpcId == vpcId
  }

  /**
   created holds the switches the run made in the VPC vpcId. listed is false when the subnet
   stage did not get a listing with status 200, which the source reports as success.
   */
  method CreateNetwork(reg: CloudRegistry, cloud: AliCloud, range: AliSubnets.ClusterRange)
    returns (ok: bool, listed: bool, ghost vpcId: string, ghost created: seq<VSwitch>)
    modifies reg`resources, cloud
    // A successful run settles the network.
    ensures ok && listed && Orderly(old(reg.resources)) ==> Settled(reg.resources, cloud.world, reg.clusterName)
    // A run on a settled network changes nothing and asks for no change.
    ensures Settled(old(reg.resources), old(cloud.world), reg.clusterName) ==>
              reg.resources == old(reg.resources) && cloud.world == old(cloud.world) && cloud.calls == old(cloud.calls)
    // Without faults a run on a settled network succeeds, and any run does exactly if the range has room.
    ensures !cloud.faulty && Settled(old(reg.resources), old(cloud.world), reg.clusterName) ==> ok && listed
    ensures !cloud.faulty ==> listed && Find(reg.resources, OfKind(VPC)).Some? && Find(reg.resources, OfKind(VPC)).value.refId == vpcId
    ensures !cloud.faulty && WellTagged(old(reg.resources), reg.clusterName) && AliSubnets.DistinctSwitches(old(cloud.world.vswitches)) ==>
              (ok <==> RoomFor(old(reg.resources), SwitchesOf(old(cloud.world), vpcId), reg.clusterName, range))
    // Every run keeps what this asks for.
    ensures WellTagged(old(reg.resources), reg.clusterName) ==> WellTagged(reg.resources, reg.clusterName)
    ensures AliSubnets.DistinctSwitches(old(cloud.world.vswitches)) ==> AliSubnets.DistinctSwitches(cloud.world.vswitches)
    // Every run, failed ones too, keeps the registry in order and carves its subnets safely.
    ensures Orderly(old(reg.resources)) ==> Orderly(reg.resources)
    ensures cloud.world.vswitches == old(cloud.world.vswitches) + created
    ensures AliSubnets.Carved(created, SwitchesOf(old(cloud.world), vpcId), range)
    ensures created != [] ==> MadeIn(created, vpcId, reg.resources)
  {
    listed, vpcId, created := false, "", [];
    ghost var rs0, w0 := reg.resources, cloud.world;
    ok := AliSubnets.CreateVpc(reg, cloud, range);
    TablesOrderKept(rs0, reg.resources);
    EipOrderKept(rs0, reg.resources);
    ghost var afterVpc := reg.resources;
    if WellTagged(rs0, reg.clusterName) {
      TagsKept(rs0, reg.resources, reg.clusterName);
    }
    if !ok {
      return;
    }
    ok, listed, vpcId, created := SettleInVpc(reg, cloud, range);
    RoomKept(rs0, afterVpc, SwitchesOf(w0, vpcId), reg.clusterName, range);
  }

  /** The last four stages. */
  method SettleInVpc(reg: CloudRegistry, cloud: AliCloud, range: AliSubnets.ClusterRange)
    returns (ok: bool, listed: bool, ghost vpcId: string, ghost created: seq<VSwitch>)
    requires AliSubnets.VpcSettled(reg.resources, cloud.world)
    modifies reg`resources, cloud
    ensures ok && listed && Orderly(old(reg.resources)) ==> Settled(reg.resources, cloud.world, reg.clusterName)
    ensures Settled(old(reg.resources), old(cloud.world), reg.clusterName) ==>
              reg.resources == old(reg.resources) && cloud.world == old(cloud.world) && cloud.calls == old(cloud.calls)
    ensures Orderly(old(reg.resources)) ==> Orderly(reg.resources)
    ensures cloud.world.vswitches == old(cloud.world.vswitches) + created
    ensures AliSubnets.Carved(created, SwitchesOf(old(cloud.world), vpcId), range)
    ensures created != [] ==> MadeIn(created, vpcId, reg.resources)
    ensures !cloud.faulty && Settled(old(reg.resources), old(cloud.world), reg.clusterName) ==> ok
    ensures !cloud.faulty ==> listed && Find(reg.resources, OfKind(VPC)).Some? && Find(reg.resources, OfKind(VPC)).value.refId == vpcId
    ensures !cloud.faulty && WellTagged(old(reg.resources), reg.clusterName) && AliSubnets.DistinctSwitches(old(cloud.world.vswitches)) ==>
              (ok <==> RoomFor(old(reg.resources), SwitchesOf(old(cloud.world), vpcId), reg.clusterName, range))
    ensures WellTagged(old(reg.resources), reg.clusterName) ==> WellTagged(reg.resources, reg.clusterName)
    ensures AliSubnets.DistinctSwitches(old(cloud.world.vswitches)) ==> AliSubnets.DistinctSwitches(cloud.world.vswitches)
  {
    ghost var rs1, w1 := reg.resources, cloud.world;
    ok, listed, vpcId, created := SubnetStage(reg, cloud, range);
    if !ok {
      return;
    }
    VpcStays(rs1, reg.resources, w1, cloud.world);
    ghost var rs2 := reg.resources;
    ok := SettleAddresses(reg, cloud, listed);
    FindKept(rs2, reg.resources, OfKind(VPC));
  }

  /** The subnet stage, and the order and tags it keeps. */
  method SubnetStage(reg: CloudRegistry, cloud: AliCloud, range: AliSubnets.ClusterRange)
    returns (ok: bool, listed: bool, ghost vpcId: string, ghost created: seq<VSwitch>)
    requires AliSubnets.VpcSettled(reg.resources, cloud.world)
    modifies reg`resources, cloud
    ensures OthersKept(old(reg.resources), reg.resources, SUBNET)
    ensures cloud.world == old(cloud.world).(vswitches := old(cloud.world.vswitches) + created)
    ensures ok && listed ==> AliSubnets.SubnetsSettled(reg.resources, cloud.world, reg.clusterName)
    ensures AliSubnets.SubnetsSettled(old(reg.resources), old(cloud.world), reg.clusterName) ==>
              reg.resources == old(reg.resources) && cloud.world == old(cloud.world) && cloud.calls == old(cloud.calls) && (!cloud.faulty ==> ok)
    ensures Orderly(old(reg.resources)) ==> Orderly(reg.resources)
    ensures AliRoutes.Orderly(old(reg.resources)) ==> AliRoutes.Orderly(reg.resources)
    ensures AliSubnets.Carved(created, SwitchesOf(old(cloud.world), vpcId), range)
    ensures created != [] ==> MadeIn(created, vpcId, reg.resources)
    ensures !cloud.faulty ==> listed && Find(reg.resources, OfKind(VPC)).Some? && Find(reg.resources, OfKind(VPC)).value.refId == vpcId
    ensures !cloud.faulty && AliSubnets.DistinctSwitches(old(cloud.world.vswitches)) ==>
              (ok <==> RoomFor(old(reg.resources), SwitchesOf(old(cloud.world), vpcId), reg.clusterName, range))
    ensures WellTagged(old(reg.resources), reg.clusterName) ==> WellTagged(reg.resources, reg.clusterName)
    ensures AliSubnets.DistinctSwitches(old(cloud.world.vswitches)) ==> AliSubnets.DistinctSwitches(cloud.world.vswitches)
  {
    VpcIsFound(reg.resources, cloud.world);
    ghost var rs1 := reg.resources;
    ok, listed, created := AliSubnets.CreateSubnets(reg, cloud, range);
    vpcId := if listed then Find(rs1, OfKind(VPC)).value.refId else "";
    SubnetStageOrder(rs1, reg.resources);
    EipOrderKept(rs1, reg.resources);
    FindKept(rs1, reg.resources, OfKind(VPC));
    if WellTagged(rs1, reg.clusterName) {
      SubnetTagsKept(rs1, reg.resources, reg.clusterName, cloud.world.vswitches);
    }
  }

  /** The last three stages. */
  method SettleAddresses(reg: CloudRegistry, cloud: AliCloud, ghost listed: bool) returns (ok: bool)
    requires AliSubnets.VpcSettled(reg.resources, cloud.world)
    requires listed ==> AliSubnets.SubnetsSettled(reg.resources, cloud.world, reg.clusterName)
    modifies reg`resources, cloud
    ensures ok && listed && AliRoutes.Orderly(old(reg.resources)) ==> Settled(reg.resources, cloud.world, reg.clusterName)
    ensures Settled(old(reg.resources), old(cloud.world), reg.clusterName) ==>
              reg.resources == old(reg.resources) && cloud.world == old(cloud.world) && cloud.calls == old(cloud.calls)
    ensures Orderly(old(reg.resources)) ==> Orderly(reg.resources)
    ensures cloud.world.vswitches == old(cloud.world.vswitches)
    ensures OfType(reg.resources, VPC) == OfType(old(reg.resources), VPC)
    ensures !cloud.faulty && Settled(old(reg.resources), old(cloud.world), reg.clusterName) ==> ok
    ensures !cloud.faulty && listed && WellTagged(old(reg.resources), reg.clusterName) ==> ok
    ensures WellTagged(old(reg.resources), reg.clusterName) ==> WellTagged(reg.resources, reg.clusterName)
  {
    ghost var rs0, w0 := reg.resources, cloud.world;
    ok := AliEips.CreateEips(reg, cloud);
    TablesOrderKept(rs0, reg.resources);
    if WellTagged(rs0, reg.clusterName) {
      TagsKept(rs0, reg.resources, reg.clusterName);
    }
    if !ok {
      return;
    }
    VpcStays(rs0, reg.resources, w0, cloud.world);
    if listed {
      SubnetsStay(rs0, reg.resources, w0, cloud.world, reg.clusterName);
    }
    ok := SettleRoutes(reg, cloud, listed);
  }

  method SettleRoutes(reg: CloudRegistry, cloud: AliCloud, ghost listed: bool) returns (ok: bool)
    requires AliSubnets.VpcSettled(reg.resources, cloud.world)
    requires AliEips.EipsSettled(reg.resources, cloud.world)
    requires listed ==> AliSubnets.SubnetsSettled(reg.resources, cloud.world, reg.clusterName)
    modifies reg`resources, cloud
    ensures ok && listed && AliRoutes.Orderly(old(reg.resources)) ==> Settled(reg.resources, cloud.world, reg.clusterName)
    ensures Settled(old(reg.resources), old(cloud.world), reg.clusterName) ==>
              reg.resources == old(reg.resources) && cloud.world == old(cloud.world) && cloud.calls == old(cloud.calls)
    ensures Orderly(old(reg.resources)) ==> Orderly(reg.resources)
    ensures cloud.world.vswitches == old(cloud.world.vswitches)
    ensures OfType(reg.resources, VPC) == OfType(old(reg.resources), VPC)
    ensures !cloud.faulty && Settled(old(reg.resources), old(cloud.world), reg.clusterName) ==> ok
    ensures !cloud.faulty && listed && WellTagged(old(reg.resources), reg.clusterName) ==> ok
    ensures WellTagged(old(reg.resources), reg.clusterName) ==> WellTagged(reg.resources, reg.clusterName)
  {
    ghost var rs0, w0 := reg.resources, cloud.world;
    ListedEipsAreNamed(rs0, w0);
    VpcIsFound(rs0, w0);
    ghost var tagged := WellTagged(rs0, reg.clusterName);
    if tagged && listed {
      NatsCanBeMade(rs0, w0, reg.clusterName);
    }
    ok := AliNats.CreateNatGateways(reg, cloud);
    TablesOrderKept(rs0, reg.resources);
    EipOrderKept(rs0, reg.resources);
    if tagged {
      TagsKept(rs0, reg.resources, reg.clusterName);
    }
    if !ok {
      return;
    }
    ghost var rs1, w1 := reg.resources, cloud.world;
    FindKept(rs0, rs1, OfKind(VPC));
    if tagged && listed {
      SubnetsStay(rs0, rs1, w0, w1, reg.clusterName);
      RoutesCanBeMade(rs1, w1, reg.clusterName, TableIds(w1.tables));
    }
    ok := AliRoutes.CreateRouteTables(reg, cloud);
    if tagged {
      TableTagsKept(rs1, reg.resources, reg.clusterName);
    }
    EipOrderKept(rs1, reg.resources);
    if ok && listed && AliRoutes.Orderly(rs0) {
      LastStages(rs0, rs1, reg.resources, w0, w1, cloud.world, reg.clusterName);
    }
  }

  lemma {:induction false} KeptTwice(was: Resources, mid: Resources, now: Resources)
    requires OthersKept(was, mid, NAT_GATEWAY) && OthersKept(mid, now, ROUTE_TABLE)
    ensures OfType(now, VPC) == OfType(was, VPC) && OfType(now, SUBNET) == OfType(was, SUBNET)
    ensures OfType(now, ELASTIC_IP) == OfType(was, ELASTIC_IP) && OfType(now, AVAILABILITY_ZONES) == OfType(was, AVAILABILITY_ZONES)
  {
  }

  lemma {:induction false} LastStages(was: Resources, mid: Resources, now: Resources, w: World, w': World, w'': World, cluster: string)
    requires AliSubnets.VpcSettled(was, w) && AliSubnets.SubnetsSettled(was, w, cluster) && AliEips.EipsSettled(was, w)
    requires AliNats.NatsSettled(mid, w') && AliRoutes.RoutesSettled(now, w'')
    requires OthersKept(was, mid, NAT_GATEWAY) && OthersKept(mid, now, ROUTE_TABLE)
    requires w' == w.(nats := w'.nats, eips := w'.eips) && EipIds(w'.eips) == EipIds(w.eips) && w'' == w'.(tables := w''.tables)
    ensures Settled(now, w'', cluster)
  {
    NatsStay(mid, now, w', w'');
    KeptTwice(was, mid, now);
    AssumedStay(was, now, w, w'', cluster);
  }

  /** The gateway and table stages leave the first three settled. */
  lemma {:induction false} AssumedStay(was: Resources, now: Resources, w: World, w': World, cluster: string)
    requires AliSubnets.VpcSettled(was, w) && AliSubnets.SubnetsSettled(was, w, cluster) && AliEips.EipsSettled(was, w)
    requires OfType(now, VPC) == OfType(was, VPC) && OfType(now, SUBNET) == OfType(was, SUBNET)
    requires OfType(now, ELASTIC_IP) == OfType(was, ELASTIC_IP) && OfType(now, AVAILABILITY_ZONES) == OfType(was, AVAILABILITY_ZONES)
    requires w'.vpcs == w.vpcs && w'.vswitches == w.vswitches && EipIds(w'.eips) == EipIds(w.eips)
    ensures AliSubnets.VpcSettled(now, w') && AliSubnets.SubnetsSettled(now, w', cluster) && AliEips.EipsSettled(now, w')
  {
    VpcStays(was, now, w, w');
    SubnetsStay(was, now, w, w', cluster);
    EipsStay(was, now, w, w');
  }

  /** A run on a settled network, such as a successful run leaves, issues no create, allocate, associate or tag call, changes nothing and succeeds. */
  method RunAgain(reg: CloudRegistry, cloud: AliCloud, range: AliSubnets.ClusterRange) returns (ok: bool)
    requires Settled(reg.resources, cloud.world, reg.clusterName)
    modifies reg`resources, cloud
    ensures reg.resources == old(reg.resources) && cloud.world == old(cloud.world) && cloud.calls == old(cloud.calls)
    ensures !cloud.faulty ==> ok
  {
    var listed;
    ghost var vpcId, created;
    ok, listed, vpcId, created := CreateNetwork(reg, cloud, range);
  }
}
