/** Settling one NAT gateway per availability zone on Ali. */
module AliNats {
  import opened Wrappers
  import opened Registry
  import opened RegistryFacts
  import opened AliClouds
  import AliSubnets

  function NatName(cluster: string, zone: string): string { cluster + "-" + zone + "-natgateway" }

  // ---------- what a run aims at ----------

  /** The first address of a gateway that is recorded. */
  function FirstEip(ips: seq<string>, rs: Resources): (r: Option<string>)
    ensures r.Some? ==> r.value != "" && Registered(rs, ELASTIC_IP, r.value)
  {
    if ips == [] then None
    else if ips[0] != "" && ByRef(rs, ELASTIC_IP, ips[0]).Some? then Some(ips[0])
    else FirstEip(ips[1..], rs)
  }

  predicate RecordedEip(ip: string, rs: Resources) { ip != "" && Registered(rs, ELASTIC_IP, ip) }

  lemma {:induction false} FirstEipIsFirst(ips: seq<string>, rs: Resources)
    ensures FirstEip(ips, rs).None? ==> forall ip :: ip in ips ==> !RecordedEip(ip, rs)
    ensures FirstEip(ips, rs).Some? ==>
              exists k :: 0 <= k < |ips| && ips[k] == FirstEip(ips, rs).value && RecordedEip(ips[k], rs)
                          && forall j :: 0 <= j < k ==> !RecordedEip(ips[j], rs)
  {
    if ips != [] && !RecordedEip(ips[0], rs) {
      FirstEipIsFirst(ips[1..], rs);
      if FirstEip(ips, rs).Some? {
        var k :| 0 <= k < |ips[1..]| && ips[1..][k] == FirstEip(ips, rs).value && RecordedEip(ips[1..][k], rs)
                 && forall j :: 0 <= j < k ==> !RecordedEip(ips[1..][j], rs);
        assert ips[k + 1] == FirstEip(ips, rs).value;
        assert forall j :: 0 < j < k + 1 ==> ips[j] == ips[1..][j - 1];
      }
    }
  }

  /** The recorded subnet the gateway stands in. */
  function SubnetOf(n: Nat, rs: Resources): (r: Option<CloudResource>)
    ensures r.Some? ==> r.value.kind == SUBNET
  {
    match n.vswitch
    case None => None
    case Some(v) => ByRef(rs, SUBNET, v)
  }

  /** A listed gateway that is taken over: in a recorded private subnet, with a recorded address. */
  predicate Adoptable(n: Nat, rs: Resources) {
    var subnet := SubnetOf(n, rs);
    subnet.Some? && subnet.value.tags.access == Some(PRIVATE) && FirstEip(n.ips, rs).Some?
  }

  /** The first gateway tagged with the zone has an address. */
  predicate Served(rs: Resources, zone: string) {
    var i := FindIndex(rs, InZone(NAT_GATEWAY, zone));
    i < |rs| && rs[i].value != ""
  }

  /** The first gateway tagged with the zone has this address. */
  predicate Carries(rs: Resources, zone: string, eip: string) {
    var i := FindIndex(rs, InZone(NAT_GATEWAY, zone));
    i < |rs| && rs[i].value == eip
  }

  ghost predicate ZonesServed(rs: Resources, zones: Resources) {
    forall i :: 0 <= i < |zones| ==> Served(rs, zones[i].refId)
  }

  /** What a gateway for the zone is made of is recorded: a private subnet and an address. */
  predicate Suppliable(rs: Resources, zone: string) {
    Has(rs, PrivateInZone(SUBNET, zone)) && Has(rs, InZone(ELASTIC_IP, zone))
  }

  ghost predicate AllSuppliable(rs: Resources) {
    NonEmptyEips(rs) && forall z :: z in OfType(rs, AVAILABILITY_ZONES) ==> Suppliable(rs, z.refId)
  }

  /** Every zone is served or can be. */
  predicate AllServable(rs: Resources, zones: Resources) {
    forall i :: 0 <= i < |zones| ==> Served(rs, zones[i].refId) || Suppliable(rs, zones[i].refId)
  }

  /** Nothing is left to take over. */
  ghost predicate AllTaken(rs: Resources, listing: seq<Nat>) {
    forall n :: n in listing ==> Registered(rs, NAT_GATEWAY, n.id) || !Adoptable(n, rs)
  }

  ghost predicate NatsFit(rs: Resources, listing: seq<Nat>) {
    && AllListed(rs, NAT_GATEWAY, NatIds(listing))
    && AllTaken(rs, listing)
    && ZonesServed(rs, OfType(rs, AVAILABILITY_ZONES))
  }

  ghost predicate NatsSettled(rs: Resources, w: World) {
    var vpc := Find(rs, OfKind(VPC));
    vpc.Some? && NatsFit(rs, NatsIn(w.nats, vpc.value.refId))
  }

  // ---------- what leaves the aim alone ----------

  lemma {:induction false} FirstEipKept(ips: seq<string>, was: Resources, now: Resources)
    requires OfType(now, ELASTIC_IP) == OfType(was, ELASTIC_IP)
    ensures FirstEip(ips, now) == FirstEip(ips, was)
  {
    if ips != [] {
      ByRefKept(was, now, ELASTIC_IP, ips[0]);
      FirstEipKept(ips[1..], was, now);
    }
  }

  lemma {:induction false} AdoptableKept(n: Nat, was: Resources, now: Resources)
    requires OfType(now, ELASTIC_IP) == OfType(was, ELASTIC_IP) && OfType(now, SUBNET) == OfType(was, SUBNET)
    ensures Adoptable(n, now) <==> Adoptable(n, was)
  {
    FirstEipKept(n.ips, was, now);
    if n.vswitch.Some? {
      ByRefKept(was, now, SUBNET, n.vswitch.value);
    }
  }

  lemma {:induction false} TakenStays(was: Resources, now: Resources, listing: seq<Nat>, listing': seq<Nat>, id: string)
    requires AllTaken(was, listing) && OthersKept(was, now, NAT_GATEWAY)
    requires forall refId :: Registered(was, NAT_GATEWAY, refId) ==> Registered(now, NAT_GATEWAY, refId)
    requires Registered(now, NAT_GATEWAY, id) && forall n :: n in listing' ==> n in listing || n.id == id
    ensures AllTaken(now, listing')
  {
    forall n | n in listing' ensures Registered(now, NAT_GATEWAY, n.id) || !Adoptable(n, now) {
      AdoptableKept(n, was, now);
    }
  }

  lemma {:induction false} AddKeepsServed(rs: Resources, r: CloudResource)
    requires r.kind == NAT_GATEWAY
    ensures forall zone :: Served(rs, zone) ==> Served(rs + [r], zone)
    ensures forall zone :: Served(rs + [r], zone) ==> Served(rs, zone) || r.tags.zone == Some(zone)
    ensures r.tags.zone.Some? && !Has(rs, InZone(NAT_GATEWAY, r.tags.zone.value)) ==>
              Carries(rs + [r], r.tags.zone.value, r.value)
  {
    forall zone | Served(rs, zone) ensures Served(rs + [r], zone) {
      FindAppend(rs, [r], InZone(NAT_GATEWAY, zone));
    }
    forall zone | Served(rs + [r], zone) && r.tags.zone != Some(zone) ensures Served(rs, zone) {
      var i := FindIndex(rs + [r], InZone(NAT_GATEWAY, zone));
      assert i < |rs| && forall j :: 0 <= j <= i ==> (rs + [r])[j] == rs[j];
      FindIndexIs(rs, InZone(NAT_GATEWAY, zone), i);
    }
    if r.tags.zone.Some? && !Has(rs, InZone(NAT_GATEWAY, r.tags.zone.value)) {
      FindIndexIs(rs + [r], InZone(NAT_GATEWAY, r.tags.zone.value), |rs|);
    }
  }

  lemma {:induction false} ValueKeepsServed(rs: Resources, i: nat, value: string)
    requires i < |rs|
    ensures value != "" ==> forall zone :: Served(rs, zone) ==> Served(rs[i := rs[i].(value := value)], zone)
    ensures forall zone :: Served(rs[i := rs[i].(value := value)], zone) ==> Served(rs, zone) || FindIndex(rs, InZone(NAT_GATEWAY, zone)) == i
    ensures forall zone :: FindIndex(rs, InZone(NAT_GATEWAY, zone)) == i ==> Carries(rs[i := rs[i].(value := value)], zone, value)
  {
    forall zone: string
      ensures value != "" && Served(rs, zone) ==> Served(rs[i := rs[i].(value := value)], zone)
      ensures Served(rs[i := rs[i].(value := value)], zone) ==> Served(rs, zone) || FindIndex(rs, InZone(NAT_GATEWAY, zone)) == i
      ensures FindIndex(rs, InZone(NAT_GATEWAY, zone)) == i ==> Carries(rs[i := rs[i].(value := value)], zone, value)
    {
      ValueInZone(rs, i, value, zone);
    }
  }

  lemma {:induction false} ValueInZone(rs: Resources, i: nat, value: string, zone: string)
    requires i < |rs|
    ensures var out, j := rs[i := rs[i].(value := value)], FindIndex(rs, InZone(NAT_GATEWAY, zone));
            && (Served(out, zone) <==> if j == i then value != "" else Served(rs, zone))
            && (j == i ==> Carries(out, zone, value))
  {
    UpdateKeepsSearches(rs, i, rs[i].(value := value), InZone(NAT_GATEWAY, zone));
  }

  // ---------- the run ----------

  /** The entry of an adopted gateway: in its subnet's zone, with its first recorded address. */
  predicate AdoptedNat(r: CloudResource, n: Nat, rs: Resources, cluster: string) {
    && Adoptable(n, rs) && r.kind == NAT_GATEWAY && r.refId == n.id
    && var subnet := SubnetOf(n, rs).value;
       var zone := subnet.tags.zone.GetOr("");
       && r.associatedId == subnet.refId && Some(r.value) == FirstEip(n.ips, rs)
       && r.name == NatName(cluster, zone) && r.tags == Tags(Some(NatName(cluster, zone)), Some(PRIVATE), Some(zone))
  }

  /** A listed gateway's turn: recorded already, not to be taken over, or recorded now. */
  method AdoptNat(reg: CloudRegistry, n: Nat)
    modifies reg`resources
    ensures OthersKept(old(reg.resources), reg.resources, NAT_GATEWAY)
    ensures forall refId :: Registered(old(reg.resources), NAT_GATEWAY, refId) ==> Registered(reg.resources, NAT_GATEWAY, refId)
    ensures forall r :: r in reg.resources && r.kind == NAT_GATEWAY ==> r in old(reg.resources) || r.refId == n.id
    ensures Registered(reg.resources, NAT_GATEWAY, n.id) || !Adoptable(n, reg.resources)
    ensures Registered(old(reg.resources), NAT_GATEWAY, n.id) || !Adoptable(n, old(reg.resources)) ==> reg.resources == old(reg.resources)
    ensures forall r :: r in reg.resources ==> r in old(reg.resources) || AdoptedNat(r, n, old(reg.resources), reg.clusterName)
  {
    if ByRef(reg.resources, NAT_GATEWAY, n.id).Some? {
      return;
    }
    var subnet := SubnetOf(n, reg.resources);
    if subnet.None? || subnet.value.tags.access != Some(PRIVATE) {
      return;
    }
    var eip := FirstEip(n.ips, reg.resources);
    if eip.None? {
      return;
    }
    var zone := subnet.value.tags.zone.GetOr("");
    var name := NatName(reg.clusterName, zone);
    var tags := Tags(Some(name), Some(PRIVATE), Some(zone));
    ghost var key := AliSubnets.Record(reg, CloudResource("", name, n.id, subnet.value.refId, NAT_GATEWAY, tags, eip.value));
  }

  method AdoptNats(reg: CloudRegistry, listing: seq<Nat>)
    requires AllListed(reg.resources, NAT_GATEWAY, NatIds(listing))
    modifies reg`resources
    ensures OthersKept(old(reg.resources), reg.resources, NAT_GATEWAY)
    ensures AllListed(reg.resources, NAT_GATEWAY, NatIds(listing)) && AllTaken(reg.resources, listing)
    ensures AllTaken(old(reg.resources), listing) ==> reg.resources == old(reg.resources)
  {
    ghost var was := reg.resources;
    for i := 0 to |listing|
      invariant OthersKept(was, reg.resources, NAT_GATEWAY)
      invariant AllListed(reg.resources, NAT_GATEWAY, NatIds(listing))
      invariant AllTaken(reg.resources, listing[..i])
      invariant AllTaken(was, listing) ==> reg.resources == was
    {
      ghost var mid := reg.resources;
      assert listing[i] in listing;
      AdoptNat(reg, listing[i]);
      TakenOneMore(mid, reg.resources, listing, i);
    }
    assert listing[..|listing|] == listing;
  }

  lemma {:induction false} TakenOneMore(was: Resources, now: Resources, listing: seq<Nat>, i: nat)
    requires i < |listing| && AllTaken(was, listing[..i]) && OthersKept(was, now, NAT_GATEWAY)
    requires forall refId :: Registered(was, NAT_GATEWAY, refId) ==> Registered(now, NAT_GATEWAY, refId)
    requires Registered(now, NAT_GATEWAY, listing[i].id) || !Adoptable(listing[i], now)
    ensures AllTaken(now, listing[..i + 1])
  {
    assert listing[..i + 1] == listing[..i] + [listing[i]];
    forall n | n in listing[..i] ensures Registered(now, NAT_GATEWAY, n.id) || !Adoptable(n, now) {
      AdoptableKept(n, was, now);
    }
  }

  /** What holds between the turns of the zones. */
  ghost predicate Serving(rs: Resources, listing: seq<Nat>) {
    AllListed(rs, NAT_GATEWAY, NatIds(listing)) && AllTaken(rs, listing)
  }

  ghost predicate NonEmptyEips(rs: Resources) {
    forall r :: r in rs && r.kind == ELASTIC_IP ==> r.refId != ""
  }

  /** One zone's turn: nothing if it is served, else its gateway gets its address or a gateway is made. */
  method ServeZone(reg: CloudRegistry, cloud: AliCloud, vpcId: string, zone: string) returns (ok: bool)
    requires Serving(reg.resources, NatsIn(cloud.world.nats, vpcId))
    modifies reg`resources, cloud
    ensures OthersKept(old(reg.resources), reg.resources, NAT_GATEWAY)
    ensures cloud.world == old(cloud.world).(nats := cloud.world.nats, eips := cloud.world.eips)
    ensures EipIds(cloud.world.eips) == EipIds(old(cloud.world.eips))
    ensures ok ==> Serving(reg.resources, NatsIn(cloud.world.nats, vpcId))
    ensures NonEmptyEips(old(reg.resources)) ==> forall z :: Served(old(reg.resources), z) ==> Served(reg.resources, z)
    ensures NonEmptyEips(old(reg.resources)) && ok ==> Served(reg.resources, zone)
    // A zone served now is served with its own address.
    ensures ok && !Served(old(reg.resources), zone) ==>
              var eip := Find(old(reg.resources), InZone(ELASTIC_IP, zone));
              eip.Some? && Carries(reg.resources, zone, eip.value.refId)
    ensures Served(old(reg.resources), zone) ==>
              ok && reg.resources == old(reg.resources) && cloud.world == old(cloud.world) && cloud.calls == old(cloud.calls)
    ensures forall z :: Served(reg.resources, z) ==> Served(old(reg.resources), z) || z == zone
    ensures ok ==> Served(old(reg.resources), zone) || Suppliable(old(reg.resources), zone)
    ensures !cloud.faulty ==> (ok <==> Served(old(reg.resources), zone) || Suppliable(old(reg.resources), zone))
  {
    var i := FindIndex(reg.resources, InZone(NAT_GATEWAY, zone));
    if i < |reg.resources| && reg.resources[i].value != "" {
      return true;
    }
    var subnet := Find(reg.resources, PrivateInZone(SUBNET, zone));
    if subnet.None? {
      return false;
    }
    var eip := Find(reg.resources, InZone(ELASTIC_IP, zone));
    if eip.None? {
      return false;
    }
    if i < |reg.resources| {
      OneZone(reg.resources, i, zone);
      ok := EquipNat(reg, cloud, vpcId, i, eip.value.refId);
    } else {
      ok := MakeNat(reg, cloud, vpcId, zone, subnet.value, eip.value);
    }
  }

  lemma {:induction false} OneZone(rs: Resources, i: nat, zone: string)
    requires i < |rs| && FindIndex(rs, InZone(NAT_GATEWAY, zone)) == i
    ensures forall z :: FindIndex(rs, InZone(NAT_GATEWAY, z)) == i ==> z == zone
  {
  }

  method EquipNat(reg: CloudRegistry, cloud: AliCloud, vpcId: string, i: nat, eip: string) returns (ok: bool)
    requires i < |reg.resources| && reg.resources[i].kind == NAT_GATEWAY
    requires Serving(reg.resources, NatsIn(cloud.world.nats, vpcId))
    modifies reg`resources, cloud
    ensures OthersKept(old(reg.resources), reg.resources, NAT_GATEWAY)
    ensures cloud.world == old(cloud.world).(nats := cloud.world.nats, eips := cloud.world.eips)
    ensures EipIds(cloud.world.eips) == EipIds(old(cloud.world.eips))
    ensures !ok ==> reg.resources == old(reg.resources)
    ensures ok ==> reg.resources == old(reg.resources)[i := old(reg.resources)[i].(value := eip)]
    ensures ok ==> Serving(reg.resources, NatsIn(cloud.world.nats, vpcId))
    ensures eip != "" ==> forall z :: Served(old(reg.resources), z) ==> Served(reg.resources, z)
    ensures ok ==> forall z :: FindIndex(old(reg.resources), InZone(NAT_GATEWAY, z)) == i ==> Carries(reg.resources, z, eip)
    ensures forall z :: Served(reg.resources, z) ==> Served(old(reg.resources), z) || FindIndex(old(reg.resources), InZone(NAT_GATEWAY, z)) == i
    ensures !cloud.faulty ==> ok
  {
    var natId := reg.resources[i].refId;
    ghost var was, nats, eips := reg.resources, cloud.world.nats, cloud.world.eips;
    ok := cloud.AssociateEip(eip, natId);
    if !ok {
      return;
    }
    reg.resources := reg.resources[i := reg.resources[i].(value := eip)];
    OccupiedIds(eips, eip, natId);
    EquippedServing(was, i, eip, nats, vpcId);
    ValueKeepsServed(was, i, eip);
  }

  lemma {:induction false} EquippedServing(rs: Resources, i: nat, eip: string, nats: seq<Nat>, vpcId: string)
    requires i < |rs| && rs[i].kind == NAT_GATEWAY && Serving(rs, NatsIn(nats, vpcId))
    ensures var out := rs[i := rs[i].(value := eip)];
            OthersKept(rs, out, NAT_GATEWAY) && Serving(out, NatsIn(Equipped(nats, rs[i].refId, eip), vpcId))
  {
    var out := rs[i := rs[i].(value := eip)];
    UpdateKeepsOthers(rs, i, rs[i].(value := eip));
    EquippedIds(nats, rs[i].refId, eip, vpcId);
    forall refId ensures Registered(rs, NAT_GATEWAY, refId) <==> Registered(out, NAT_GATEWAY, refId) {
      UpdateKeepsRefs(rs, i, rs[i].(value := eip), NAT_GATEWAY, refId);
    }
    assert rs[i] in rs && Registered(rs, NAT_GATEWAY, rs[i].refId);
    TakenStays(rs, out, NatsIn(nats, vpcId), NatsIn(Equipped(nats, rs[i].refId, eip), vpcId), rs[i].refId);
    forall r | r in out && r.kind == NAT_GATEWAY ensures Registered(rs, NAT_GATEWAY, r.refId) {
      assert Registered(out, NAT_GATEWAY, r.refId);
    }
  }

  /** Creates the gateway in the zone's private subnet, gives it the zone's address and a source rule, and records it. */
  method MakeNat(reg: CloudRegistry, cloud: AliCloud, vpcId: string, zone: string, subnet: CloudResource, eip: CloudResource) returns (ok: bool)
    requires Serving(reg.resources, NatsIn(cloud.world.nats, vpcId)) && !Has(reg.resources, InZone(NAT_GATEWAY, zone))
    modifies reg`resources, cloud
    ensures OthersKept(old(reg.resources), reg.resources, NAT_GATEWAY)
    ensures cloud.world == old(cloud.world).(nats := cloud.world.nats, eips := cloud.world.eips)
    ensures EipIds(cloud.world.eips) == EipIds(old(cloud.world.eips))
    ensures ok ==> Serving(reg.resources, NatsIn(cloud.world.nats, vpcId))
    ensures forall z :: Served(old(reg.resources), z) ==> Served(reg.resources, z)
    ensures ok ==> Carries(reg.resources, zone, eip.refId)
    ensures forall z :: Served(reg.resources, z) ==> Served(old(reg.resources), z) || z == zone
    ensures !cloud.faulty ==> ok
    ensures ok ==> exists id ::
                     && cloud.calls == old(cloud.calls)
                        + [CreateNatGateway(vpcId, subnet.refId), AssociateEipAddress(eip.refId, id), CreateSnatEntry(subnet.refId, eip.value)]
                     && |reg.resources| == |old(reg.resources)| + 1 && reg.resources[|old(reg.resources)|].refId == id
                     && reg.resources[|old(reg.resources)|].associatedId == subnet.refId
                     && reg.resources[|old(reg.resources)|].name == NatName(reg.clusterName, zone)
                     && reg.resources[|old(reg.resources)|].tags == Tags(Some(NatName(reg.clusterName, zone)), Some(PUBLIC), Some(zone))
  {
    ghost var was, nats := reg.resources, cloud.world.nats;
    var id := BuildNat(cloud, vpcId, subnet.refId, eip);
    if id.None? {
      return false;
    }
    ok := true;
    var name := NatName(reg.clusterName, zone);
    var r := CloudResource("", name, id.value, subnet.refId, NAT_GATEWAY, Tags(Some(name), Some(PUBLIC), Some(zone)), eip.refId);
    ghost var key := AliSubnets.Record(reg, r);
    AddKeepsServed(was, r.(id := key));
    MadeServing(was, r.(id := key), nats, Nat(id.value, vpcId, Some(subnet.refId), []), eip.refId, vpcId);
  }

  /** The three calls; a gateway that fails on the way stays unrecorded. */
  method BuildNat(cloud: AliCloud, vpcId: string, subnetId: string, eip: CloudResource) returns (id: Option<CloudId>)
    modifies cloud
    ensures cloud.world == old(cloud.world).(nats := cloud.world.nats, eips := cloud.world.eips)
    ensures EipIds(cloud.world.eips) == EipIds(old(cloud.world.eips))
    ensures !cloud.faulty ==> id.Some?
    ensures id.Some? ==>
              && cloud.world.nats == Equipped(old(cloud.world.nats) + [Nat(id.value, vpcId, Some(subnetId), [])], id.value, eip.refId)
              && cloud.calls == old(cloud.calls)
                 + [CreateNatGateway(vpcId, subnetId), AssociateEipAddress(eip.refId, id.value), CreateSnatEntry(subnetId, eip.value)]
  {
    ghost var eips := cloud.world.eips;
    id := cloud.CreateNat(vpcId, subnetId);
    if id.None? {
      return;
    }
    var ok := cloud.Reachable();  // until it is available
    if !ok {
      return None;
    }
    ok := cloud.AssociateEip(eip.refId, id.value);
    OccupiedIds(eips, eip.refId, id.value);
    if !ok {
      return None;
    }
    ok := cloud.CreateSnat(subnetId, eip.value);
    if !ok {
      return None;
    }
  }

  lemma {:induction false} MadeServing(rs: Resources, r: CloudResource, nats: seq<Nat>, n: Nat, eip: string, vpcId: string)
    requires Serving(rs, NatsIn(nats, vpcId)) && r.kind == NAT_GATEWAY && n.id == r.refId && n.vpcId == vpcId
    ensures Serving(rs + [r], NatsIn(Equipped(nats + [n], n.id, eip), vpcId))
  {
    AddKeepsOthers(rs, r);
    EquippedIds(nats + [n], n.id, eip, vpcId);
    var listing, listing' := NatsIn(nats, vpcId), NatsIn(Equipped(nats + [n], n.id, eip), vpcId);
    assert n in NatsIn(nats + [n], vpcId);
    assert NatIds(NatsIn(nats + [n], vpcId)) == NatIds(listing) + {n.id};
    TakenStays(rs, rs + [r], listing, listing', n.id);
  }

  /** All zones up to i are served, and no recorded address is empty. */
  ghost predicate ServedUpTo(rs: Resources, zones: Resources, i: nat) {
    i <= |zones| && NonEmptyEips(rs) && ZonesServed(rs, zones[..i])
  }

  lemma {:induction false} ServedOneMore(was: Resources, now: Resources, zones: Resources, i: nat)
    requires i < |zones| && OthersKept(was, now, NAT_GATEWAY)
    requires NonEmptyEips(was) ==> (forall z :: Served(was, z) ==> Served(now, z)) && Served(now, zones[i].refId)
    ensures ServedUpTo(was, zones, i) ==> ServedUpTo(now, zones, i + 1)
  {
    MembersKept(was, now, ELASTIC_IP);
    assert forall j :: 0 <= j < i ==> zones[..i + 1][j] == zones[..i][j];
  }

  /** The zones up to i were servable, and served are those that were, or were made so. */
  ghost predicate Supplying(was: Resources, now: Resources, zones: Resources, i: nat) {
    && i <= |zones| && OthersKept(was, now, NAT_GATEWAY)
    && AllServable(was, zones[..i])
    && (forall z :: Served(now, z) ==> Served(was, z) || Suppliable(was, z))
    && (NonEmptyEips(was) ==> forall z :: Served(was, z) ==> Served(now, z))
  }

  lemma {:induction false} SuppliableKept(was: Resources, now: Resources, zone: string)
    requires OthersKept(was, now, NAT_GATEWAY)
    ensures Suppliable(now, zone) <==> Suppliable(was, zone)
  {
    FindKept(was, now, PrivateInZone(SUBNET, zone));
    FindKept(was, now, InZone(ELASTIC_IP, zone));
  }

  lemma {:induction false} SuppliesKept(was: Resources, now: Resources)
    requires OthersKept(was, now, NAT_GATEWAY)
    ensures NonEmptyEips(now) <==> NonEmptyEips(was)
    ensures AllSuppliable(was) ==> AllServable(now, OfType(now, AVAILABILITY_ZONES))
  {
    MembersKept(was, now, ELASTIC_IP);
    var zones := OfType(was, AVAILABILITY_ZONES);
    forall i | 0 <= i < |zones| && AllSuppliable(was) ensures Suppliable(now, zones[i].refId) {
      assert zones[i] in zones;
      SuppliableKept(was, now, zones[i].refId);
    }
  }

  lemma {:induction false} SupplyStep(was: Resources, mid: Resources, now: Resources, zones: Resources, i: nat)
    requires Supplying(was, mid, zones, i) && i < |zones| && OthersKept(mid, now, NAT_GATEWAY)
    requires forall z :: Served(now, z) ==> Served(mid, z) || z == zones[i].refId
    requires NonEmptyEips(mid) ==> forall z :: Served(mid, z) ==> Served(now, z)
    ensures Served(mid, zones[i].refId) || Suppliable(mid, zones[i].refId) ==> Supplying(was, now, zones, i + 1)
    ensures Served(mid, zones[i].refId) || Suppliable(mid, zones[i].refId) ==> Served(was, zones[i].refId) || Suppliable(was, zones[i].refId)
    ensures NonEmptyEips(was) && !(Served(mid, zones[i].refId) || Suppliable(mid, zones[i].refId)) ==> !AllServable(was, zones)
  {
    SuppliableKept(was, mid, zones[i].refId);
    assert zones[..i + 1] == zones[..i] + [zones[i]];
    MembersKept(was, mid, ELASTIC_IP);
  }

  method ServeZones(reg: CloudRegistry, cloud: AliCloud, vpcId: string) returns (ok: bool)
    requires Serving(reg.resources, NatsIn(cloud.world.nats, vpcId))
    modifies reg`resources, cloud
    ensures OthersKept(old(reg.resources), reg.resources, NAT_GATEWAY)
    ensures cloud.world == old(cloud.world).(nats := cloud.world.nats, eips := cloud.world.eips)
    ensures EipIds(cloud.world.eips) == EipIds(old(cloud.world.eips))
    ensures ok && NonEmptyEips(old(reg.resources)) ==> NatsFit(reg.resources, NatsIn(cloud.world.nats, vpcId))
    ensures ok ==> AllServable(old(reg.resources), OfType(old(reg.resources), AVAILABILITY_ZONES))
    ensures !cloud.faulty && NonEmptyEips(old(reg.resources)) ==>
              (ok <==> AllServable(old(reg.resources), OfType(old(reg.resources), AVAILABILITY_ZONES)))
    ensures ZonesServed(old(reg.resources), OfType(old(reg.resources), AVAILABILITY_ZONES)) ==>
              ok && reg.resources == old(reg.resources) && cloud.world == old(cloud.world) && cloud.calls == old(cloud.calls)
  {
    ghost var was := reg.resources;
    var zones := OfType(reg.resources, AVAILABILITY_ZONES);
    ghost var nothingToDo := ZonesServed(was, zones);
    for i := 0 to |zones|
      invariant zones == OfType(reg.resources, AVAILABILITY_ZONES)
      invariant OthersKept(was, reg.resources, NAT_GATEWAY)
      invariant cloud.world == old(cloud.world).(nats := cloud.world.nats, eips := cloud.world.eips)
      invariant EipIds(cloud.world.eips) == EipIds(old(cloud.world.eips))
      invariant Serving(reg.resources, NatsIn(cloud.world.nats, vpcId))
      invariant NonEmptyEips(was) ==> ServedUpTo(reg.resources, zones, i)
      invariant Supplying(was, reg.resources, zones, i)
      invariant nothingToDo ==> reg.resources == was && cloud.world == old(cloud.world) && cloud.calls == old(cloud.calls)
    {
      ghost var mid := reg.resources;
      ok := ServeZone(reg, cloud, vpcId, zones[i].refId);
      SupplyStep(was, mid, reg.resources, zones, i);
      if !ok {
        return;
      }
      ServedOneMore(mid, reg.resources, zones, i);
    }
    assert zones[..|zones|] == zones;
    ok := true;
  }

  /** Prunes gateways the cloud no longer has, takes over those that fit, and serves every zone. */
  method CreateNatGateways(reg: CloudRegistry, cloud: AliCloud) returns (ok: bool)
    modifies reg`resources, cloud
    ensures OthersKept(old(reg.resources), reg.resources, NAT_GATEWAY)
    ensures cloud.world == old(cloud.world).(nats := cloud.world.nats, eips := cloud.world.eips)
    ensures EipIds(cloud.world.eips) == EipIds(old(cloud.world.eips))
    ensures ok && NonEmptyEips(old(reg.resources)) ==> NatsSettled(reg.resources, cloud.world)
    // Without faults it succeeds if what each zone's gateway is made of is recorded.
    ensures !cloud.faulty && Find(old(reg.resources), OfKind(VPC)).Some? && AllSuppliable(old(reg.resources)) ==> ok
    ensures !cloud.faulty && NatsSettled(old(reg.resources), old(cloud.world)) ==> ok
    ensures NatsSettled(old(reg.resources), old(cloud.world)) ==>
              reg.resources == old(reg.resources) && cloud.world == old(cloud.world) && cloud.calls == old(cloud.calls)
  {
    ghost var was := reg.resources;
    var vpc := Find(reg.resources, OfKind(VPC));
    if vpc.None? {
      return false;
    }
    ok := cloud.Reachable();
    if !ok {
      return;
    }
    var listing := NatsIn(cloud.world.nats, vpc.value.refId);
    PrunedIsLive(was, NAT_GATEWAY, NatIds(listing));
    reg.Prune(NAT_GATEWAY, NatIds(listing));
    AdoptNats(reg, listing);
    MembersKept(was, reg.resources, ELASTIC_IP);
    SuppliesKept(was, reg.resources);
    ok := ServeZones(reg, cloud, vpc.value.refId);
    FindKept(was, reg.resources, OfKind(VPC));
  }
}
