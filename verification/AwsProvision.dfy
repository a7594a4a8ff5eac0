/** Subnets and elastic addresses per availability zone on AWS, where zones go by their name. */
module AwsProvision {
  import opened Wrappers
  import opened Cidr
  import opened Registry
  import opened RegistryFacts
  import opened AliClouds
  import AliSubnets
  import AliEips
  import AwsNetworks
  import opened Text

  /** A listed subnet of the VPC; any field of the response may be absent. */
  datatype Subnet = Subnet(id: Option<CloudId>, zone: Option<string>, zoneId: Option<string>, cidr: Option<CidrText>)

  /** An address is free if it is a VPC address without association, instance or interface. */
  datatype Address = Address(id: CloudId, ip: string, free: bool)

  function SubnetIds(subnets: seq<Subnet>): set<string> {
    set s | s in subnets :: if s.id.Some? then s.id.value else ""
  }

  /** Entries lacking any field are passed over; the others are treated alike on both clouds. */
  function View(s: Subnet): VSwitch {
    if s.id.Some? && s.zone.Some? && s.zoneId.Some? && s.cidr.Some? then VSwitch(s.id, "", s.cidr, s.zone)
    else VSwitch(None, "", None, None)
  }

  function Views(subnets: seq<Subnet>): seq<VSwitch> {
    seq(|subnets|, i requires 0 <= i < |subnets| => View(subnets[i]))
  }

  function EipView(a: Address): Eip { Eip(a.id, if a.free then "" else "in use", a.ip) }

  function EipViews(addresses: seq<Address>): seq<Eip> {
    seq(|addresses|, i requires 0 <= i < |addresses| => EipView(addresses[i]))
  }

  lemma {:induction false} EipViewsAppend(addresses: seq<Address>, a: Address)
    ensures EipViews(addresses + [a]) == EipViews(addresses) + [EipView(a)]
  {
  }

  lemma {:induction false} ViewsAppend(subnets: seq<Subnet>, s: Subnet)
    ensures Views(subnets + [s]) == Views(subnets) + [View(s)]
  {
  }

  /** With faulty set, any call may fail, without effect. Ids are never given twice. */
  class Ec2 {
    const faulty: bool
    var subnets: seq<Subnet>
    var addresses: seq<Address>

    constructor (faulty: bool, subnets: seq<Subnet>, addresses: seq<Address>)
      ensures this.faulty == faulty && this.subnets == subnets && this.addresses == addresses
    {
      this.faulty, this.subnets, this.addresses := faulty, subnets, addresses;
    }

    method Reachable() returns (ok: bool)
      ensures !faulty ==> ok
    {
      var fail: bool := *;
      ok := !(faulty && fail);
    }

    method CreateSubnet(cidr: Network, zone: string) returns (id: Option<CloudId>)
      modifies this`subnets
      ensures id.None? ==> subnets == old(subnets)
      ensures id.Some? ==> exists zoneId :: subnets == old(subnets) + [Subnet(id, Some(zone), Some(zoneId), Some(Good(cidr)))]
      ensures !faulty ==> id.Some?
    {
      var ok := Reachable();
      if !ok {
        return None;
      }
      var vs := subnets;
      var taken := seq(|vs|, i requires 0 <= i < |vs| => if vs[i].id.Some? then vs[i].id.value else "");
      var given: bool, any: string, zoneId: string := *, *, *;
      var newId: CloudId := if !given || any == "" || any in taken then Fresh(taken) else any;
      id := Some(newId);
      subnets := subnets + [Subnet(id, Some(zone), Some(zoneId), Some(Good(cidr)))];
    }

    method AllocateAddress() returns (a: Option<Address>)
      modifies this`addresses
      ensures a.None? ==> addresses == old(addresses)
      ensures a.Some? ==> a.value.free && a.value.id !in EipIds(EipViews(old(addresses))) && addresses == old(addresses) + [a.value]
      ensures !faulty ==> a.Some?
    {
      var ok := Reachable();
      if !ok {
        return None;
      }
      var views := EipViews(addresses);
      var taken := seq(|views|, i requires 0 <= i < |views| => views[i].id);
      var given: bool, any: string, ip: string := *, *, *;
      var newId: CloudId := if !given || any == "" || any in taken then Fresh(taken) else any;
      NotAmong(views, taken, (e: Eip) => e.id, newId);
      a := Some(Address(newId, ip, true));
      addresses := addresses + [a.value];
    }
  }

  // ---------- subnets ----------

  /** Every zone has a recorded subnet named after it. */
  ghost predicate ZonesNamed(rs: Resources, zones: Resources, cluster: string) {
    forall i :: 0 <= i < |zones| ==> Has(rs, Named(SUBNET, AliSubnets.SubnetName(cluster, zones[i].name)))
  }

  /** The zones go by their names. */
  function NamesOf(zones: Resources): (names: seq<string>)
    ensures |names| == |zones| && forall i :: 0 <= i < |names| ==> names[i] == zones[i].name
  {
    seq(|zones|, i requires 0 <= i < |zones| => zones[i].name)
  }

  method AdoptSubnets(reg: CloudRegistry, perZone: map<string, VSwitch>)
    modifies reg`resources
    ensures AliSubnets.Adopting(old(reg.resources), reg.resources, reg.clusterName, perZone, perZone.Keys)
    ensures (forall z :: z in perZone ==> Registered(old(reg.resources), SUBNET, SwitchId(perZone[z]))) ==>
              reg.resources == old(reg.resources)
  {
    ghost var was := reg.resources;
    ghost var done: set<string> := {};
    var todo := perZone.Keys;
    while todo != {}
      invariant done + todo == perZone.Keys && done !! todo
      invariant AliSubnets.Adopting(was, reg.resources, reg.clusterName, perZone, done)
      invariant (forall z :: z in perZone ==> Registered(was, SUBNET, SwitchId(perZone[z]))) ==> reg.resources == was
      decreases todo
    {
      var zone :| zone in todo;
      ghost var mid := reg.resources;
      if ByRef(reg.resources, SUBNET, SwitchId(perZone[zone])).None? {
        AliSubnets.RecordSubnet(reg, SwitchId(perZone[zone]), "", zone);
      }
      AliSubnets.AdoptingStep(was, mid, reg.resources, reg.clusterName, perZone, done, zone);
      done, todo := done + {zone}, todo - {zone};
    }
  }

  /** One zone's turn. A subnet that does not become available stays created but unrecorded. */
  method CreateSubnet(reg: CloudRegistry, ec2: Ec2, vpcId: string, range: AliSubnets.ClusterRange, cidrs: seq<CidrText>, zone: string)
    returns (ok: bool, made: seq<VSwitch>)
    modifies reg`resources, ec2`subnets
    ensures OthersKept(old(reg.resources), reg.resources, SUBNET) && old(reg.resources) <= reg.resources
    ensures Views(ec2.subnets) == Views(old(ec2.subnets)) + made && |made| <= 1
    ensures made != [] ==>
              && AliSubnets.MadeFor(made[0], "", range, cidrs, zone) && FreeNumbers(range.parsed, cidrs) != {}
              && !AliSubnets.IsNamed(old(reg.resources), reg.clusterName, zone)
    ensures made == [] ==> reg.resources == old(reg.resources)
    ensures !ec2.faulty ==> (ok <==> AliSubnets.IsNamed(old(reg.resources), reg.clusterName, zone) || FreeNumbers(range.parsed, cidrs) != {})
    ensures ok ==> Has(reg.resources, Named(SUBNET, AliSubnets.SubnetName(reg.clusterName, zone)))
    ensures Has(old(reg.resources), Named(SUBNET, AliSubnets.SubnetName(reg.clusterName, zone))) ==>
              ok && made == [] && reg.resources == old(reg.resources) && ec2.subnets == old(ec2.subnets)
    ensures AliSubnets.NewDocumented(old(reg.resources), reg.resources, reg.clusterName, made)
  {
    made := [];
    if Has(reg.resources, Named(SUBNET, AliSubnets.SubnetName(reg.clusterName, zone))) {
      return true, [];
    }
    var cidr := GenerateSubnet(range.parsed, cidrs);
    if cidr.Err? {
      return false, [];
    }
    ghost var before := ec2.subnets;
    var id := ec2.CreateSubnet(cidr.value, zone);
    if id.None? {
      return false, [];
    }
    ViewsAppend(before, ec2.subnets[|before|]);
    made := [VSwitch(id, "", Some(Good(cidr.value)), Some(zone))];
    ok := ec2.Reachable();  // until it is available
    if ok {
      AliSubnets.RecordSubnet(reg, id.value, vpcId, zone);
    }
  }

  /** Where the creation loop stands. */
  ghost predicate Creating(listed: seq<VSwitch>, created: seq<VSwitch>, cidrs: seq<CidrText>, range: AliSubnets.ClusterRange) {
    && AliSubnets.Carved(created, listed, range)
    && (forall v :: v in listed && AliSubnets.Complete(v) ==> v.cidr.value in cidrs)
    && (forall v :: v in created ==> v.cidr.value in cidrs)
  }

  /** Where the creation loop stands after i zones, which a failed turn leaves uncounted. */
  ghost predicate Turned(was: Resources, now: Resources, cluster: string, listed: seq<VSwitch>, created: seq<VSwitch>,
                         cidrs: seq<CidrText>, range: AliSubnets.ClusterRange) {
    && OthersKept(was, now, SUBNET) && was <= now
    && Creating(listed, created, cidrs, range)
    && AliSubnets.NewDocumented(was, now, cluster, created)
  }

  /** One turn of the creation loop. */
  method CreateNext(reg: CloudRegistry, ec2: Ec2, vpcId: string, range: AliSubnets.ClusterRange, zones: Resources, i: nat,
                    created: seq<VSwitch>, cidrs: seq<CidrText>, ghost was: Resources, ghost listed: seq<VSwitch>, ghost existing: seq<CidrText>)
    returns (ok: bool, created': seq<VSwitch>, cidrs': seq<CidrText>)
    requires i < |zones| && Turned(was, reg.resources, reg.clusterName, listed, created, cidrs, range)
    requires AliSubnets.Counted(reg.clusterName, was, reg.resources, NamesOf(zones), i, |created|, cidrs, range, existing)
    requires Views(ec2.subnets) == listed + created
    modifies reg`resources, ec2`subnets
    ensures Turned(was, reg.resources, reg.clusterName, listed, created', cidrs', range)
    ensures Views(ec2.subnets) == listed + created'
    ensures ok ==> AliSubnets.Counted(reg.clusterName, was, reg.resources, NamesOf(zones), i + 1, |created'|, cidrs', range, existing)
    ensures !ok && !ec2.faulty ==> |AliSubnets.Lacking(was, NamesOf(zones), reg.clusterName)| > |FreeNumbers(range.parsed, existing)|
    ensures AliSubnets.IsNamed(old(reg.resources), reg.clusterName, zones[i].name) ==> ok && created' == created && reg.resources == old(reg.resources)
  {
    ghost var mid := reg.resources;
    var made;
    ok, made := CreateSubnet(reg, ec2, vpcId, range, cidrs, zones[i].name);
    created', cidrs' := created + made, cidrs + AliSubnets.TakenBy(made);
    AliSubnets.Appended(listed, created, made);
    AliSubnets.DocumentedTwice(was, mid, reg.resources, reg.clusterName, created, made);
    AliSubnets.CountTurn(reg.clusterName, was, mid, reg.resources, NamesOf(zones), i, |created|, made, "", cidrs, range, existing);
    CreatingTurn(listed, created, made, cidrs, range, zones[i].name);
  }

  method CreateMissing(reg: CloudRegistry, ec2: Ec2, vpcId: string, range: AliSubnets.ClusterRange, existing: seq<CidrText>)
    returns (ok: bool, created: seq<VSwitch>)
    requires forall v :: v in Views(ec2.subnets) && AliSubnets.Complete(v) ==> v.cidr.value in existing
    modifies reg`resources, ec2`subnets
    ensures OthersKept(old(reg.resources), reg.resources, SUBNET) && old(reg.resources) <= reg.resources
    ensures Views(ec2.subnets) == Views(old(ec2.subnets)) + created
    ensures AliSubnets.Carved(created, Views(old(ec2.subnets)), range)
    ensures AliSubnets.NewDocumented(old(reg.resources), reg.resources, reg.clusterName, created)
    ensures ok ==> ZonesNamed(reg.resources, OfType(reg.resources, AVAILABILITY_ZONES), reg.clusterName)
    ensures ok || !ec2.faulty ==>
              (ok <==> |AliSubnets.Lacking(old(reg.resources), NamesOf(OfType(old(reg.resources), AVAILABILITY_ZONES)), reg.clusterName)|
                       <= |FreeNumbers(range.parsed, existing)|)
    ensures ZonesNamed(old(reg.resources), OfType(old(reg.resources), AVAILABILITY_ZONES), reg.clusterName) ==>
              ok && created == [] && reg.resources == old(reg.resources)
  {
    ghost var was, listed := reg.resources, Views(ec2.subnets);
    var zones := OfType(reg.resources, AVAILABILITY_ZONES);
    ghost var nothingToDo := ZonesNamed(was, zones, reg.clusterName);
    var cidrs := existing;
    created := [];
    AliSubnets.CountingStart(reg.clusterName, was, NamesOf(zones), existing, range);
    for i := 0 to |zones|
      invariant Turned(was, reg.resources, reg.clusterName, listed, created, cidrs, range)
      invariant Views(ec2.subnets) == listed + created
      invariant AliSubnets.Counted(reg.clusterName, was, reg.resources, NamesOf(zones), i, |created|, cidrs, range, existing)
      invariant nothingToDo ==> created == [] && reg.resources == was
    {
      ok, created, cidrs := CreateNext(reg, ec2, vpcId, range, zones, i, created, cidrs, was, listed, existing);
      if !ok {
        return;
      }
    }
    CountedAll(reg.clusterName, was, reg.resources, zones, |created|, cidrs, range, existing);
    ok := true;
  }

  lemma {:induction false} CreatingTurn(listed: seq<VSwitch>, created: seq<VSwitch>, made: seq<VSwitch>, cidrs: seq<CidrText>,
                                        range: AliSubnets.ClusterRange, zone: string)
    requires Creating(listed, created, cidrs, range) && |made| <= 1
    requires made != [] ==> AliSubnets.MadeFor(made[0], "", range, cidrs, zone)
    ensures Creating(listed, created + made, cidrs + AliSubnets.TakenBy(made), range)
  {
    if made == [] {
      assert created + made == created && cidrs + AliSubnets.TakenBy(made) == cidrs;
    } else {
      assert made == [made[0]];
      AliSubnets.CarvedStep(created, made[0], listed, range, "", cidrs, zone);
    }
  }

  lemma {:induction false} CountedAll(cluster: string, was: Resources, now: Resources, zones: Resources, made: nat,
                                      cidrs: seq<CidrText>, range: AliSubnets.ClusterRange, existing: seq<CidrText>)
    requires AliSubnets.Counted(cluster, was, now, NamesOf(zones), |zones|, made, cidrs, range, existing)
    ensures ZonesNamed(now, zones, cluster) && |AliSubnets.Lacking(was, NamesOf(zones), cluster)| <= |FreeNumbers(range.parsed, existing)|
  {
    var names := NamesOf(zones);
    assert names[..|zones|] == names;
    forall i | 0 <= i < |zones| ensures AliSubnets.IsNamed(now, cluster, zones[i].name) {
      assert names[i] in names;
    }
  }

  /**
   Every subnet the run creates lies in the cluster's range, clear of every listed complete one
   and of the others it creates. Success names a subnet for each zone; it may be a stale one,
   since the pruning here hits no entry by its reference.
   */
  method CreateSubnets(reg: CloudRegistry, ec2: Ec2, range: AliSubnets.ClusterRange) returns (ok: bool, created: seq<VSwitch>)
    modifies reg`resources, ec2`subnets
    ensures OthersKept(old(reg.resources), reg.resources, SUBNET)
    ensures Views(ec2.subnets) == Views(old(ec2.subnets)) + created
    ensures AliSubnets.Carved(created, Views(old(ec2.subnets)), range)
    ensures ok ==> ZonesNamed(reg.resources, OfType(reg.resources, AVAILABILITY_ZONES), reg.clusterName)
    ensures ok ==> AliSubnets.FirstsRecorded(reg.resources, Views(old(ec2.subnets)))
    // Without faults it succeeds exactly if the range has room for the zones without a subnet.
    ensures !ec2.faulty && AliSubnets.DistinctSwitches(Views(old(ec2.subnets))) ==>
              (ok <==> && Find(old(reg.resources), OfKind(VPC)).Some?
                       && RoomFor(old(reg.resources), old(ec2.subnets), reg.clusterName, range))
    ensures AliSubnets.NewDocumented(old(reg.resources), reg.resources, reg.clusterName, Views(ec2.subnets))
  {
    ghost var was := reg.resources;
    var vpc := Find(reg.resources, OfKind(VPC));
    if vpc.None? {
      return false, [];
    }
    ok := ec2.Reachable();
    if !ok {
      return ok, [];
    }
    var listing := Views(ec2.subnets);
    var cidrs := PruneAndAdopt(reg, SubnetIds(ec2.subnets), listing);
    ghost var adopted := reg.resources;
    SameEntriesSameRoom(range.parsed, cidrs, AliSubnets.RangesOf(listing));
    if AliSubnets.DistinctSwitches(listing) {
      assert AliSubnets.Lacking(adopted, NamesOf(OfType(adopted, AVAILABILITY_ZONES)), reg.clusterName)
          == AliSubnets.Missing(Remove(was, AwsNetworks.KeyedLikeStale(was, SubnetIds(ec2.subnets))),
                                NamesOf(OfType(was, AVAILABILITY_ZONES)), listing, reg.clusterName);
    }
    ok, created := CreateMissing(reg, ec2, vpc.value.refId, range, cidrs);
    RegisteredGrows(adopted, reg.resources);
    AliSubnets.DocumentedTwice(was, adopted, reg.resources, reg.clusterName, listing, created);
  }

  /** The two loops before the creation loop. existing are the ranges in use. */
  method PruneAndAdopt(reg: CloudRegistry, listed: set<string>, listing: seq<VSwitch>) returns (existing: seq<CidrText>)
    modifies reg`resources
    ensures OthersKept(old(reg.resources), reg.resources, SUBNET)
    ensures forall c :: c in existing <==> c in AliSubnets.RangesOf(listing)
    ensures AliSubnets.FirstsRecorded(reg.resources, listing)
    ensures AliSubnets.NewDocumented(old(reg.resources), reg.resources, reg.clusterName, listing)
    ensures AliSubnets.DistinctSwitches(listing) ==>
              forall z :: AliSubnets.IsNamed(reg.resources, reg.clusterName, z)
                          <==> AliSubnets.NamedLater(Remove(old(reg.resources), AwsNetworks.KeyedLikeStale(old(reg.resources), listed)),
                                                     listing, reg.clusterName, z)
  {
    ghost var was := reg.resources;
    PruneKeepsOthers(was, listed);
    AwsNetworks.PruneSubnets(reg, listed);
    var perZone;
    existing, perZone := AliSubnets.Survey(listing);
    ghost var pruned := reg.resources;
    AdoptSubnets(reg, perZone);
    AliSubnets.AdoptedDocument(was, pruned, reg.resources, listing, perZone, reg.clusterName);
    if AliSubnets.DistinctSwitches(listing) {
      AliSubnets.AdoptedNames(pruned, reg.resources, listing, perZone, reg.clusterName);
    }
  }

  /** The range has room for every zone that pruning and adoption leave without a subnet. */
  ghost predicate RoomFor(rs: Resources, subnets: seq<Subnet>, cluster: string, range: AliSubnets.ClusterRange) {
    AliSubnets.Roomy(Remove(rs, AwsNetworks.KeyedLikeStale(rs, SubnetIds(subnets))), NamesOf(OfType(rs, AVAILABILITY_ZONES)),
                     Views(subnets), cluster, range)
  }

  lemma {:induction false} RegisteredGrows(was: Resources, now: Resources)
    requires was <= now
    ensures forall refId :: Registered(was, SUBNET, refId) ==> Registered(now, SUBNET, refId)
  {
  }

  lemma {:induction false} PruneKeepsOthers(rs: Resources, listed: set<string>)
    ensures OthersKept(rs, Remove(rs, AwsNetworks.KeyedLikeStale(rs, listed)), SUBNET)
  {
    forall k | k != SUBNET ensures OfType(Remove(rs, AwsNetworks.KeyedLikeStale(rs, listed)), k) == OfType(rs, k) {
      OfTypeRemove(rs, AwsNetworks.KeyedLikeStale(rs, listed), k);
    }
  }

  // ---------- addresses ----------

  ghost predicate ZonesServed(rs: Resources, zones: Resources) {
    forall i :: 0 <= i < |zones| ==> Has(rs, InZone(ELASTIC_IP, zones[i].name))
  }

  /** The inner loop goes on after taking an address, but takes no second one. */
  method AdoptEips(reg: CloudRegistry, zone: string, listing: seq<Eip>, ghost was: Resources, ghost eips: seq<Eip>)
    requires AliEips.Serving(reg.clusterName, was, reg.resources, listing, eips)
    modifies reg`resources
    ensures AliEips.Serving(reg.clusterName, was, reg.resources, listing, eips) && old(reg.resources) <= reg.resources
    ensures Has(old(reg.resources), InZone(ELASTIC_IP, zone)) ==> reg.resources == old(reg.resources)
    ensures !Has(reg.resources, InZone(ELASTIC_IP, zone)) ==>
              forall e :: e in listing ==> e.instance != "" || Registered(reg.resources, ELASTIC_IP, e.id)
  {
    ghost var mid := reg.resources;
    for i := 0 to |listing|
      invariant AliEips.Serving(reg.clusterName, was, reg.resources, listing, eips) && mid <= reg.resources
      invariant Has(mid, InZone(ELASTIC_IP, zone)) ==> reg.resources == mid
      invariant !Has(reg.resources, InZone(ELASTIC_IP, zone)) ==>
                  forall e :: e in listing[..i] ==> e.instance != "" || Registered(reg.resources, ELASTIC_IP, e.id)
    {
      var e := listing[i];
      assert listing[..i + 1] == listing[..i] + [e];
      if e.instance == "" && ByRef(reg.resources, ELASTIC_IP, e.id).None? {
        if Has(reg.resources, InZone(ELASTIC_IP, zone)) {
          return;
        }
        assert e in listing && e in eips;
        AliEips.RecordEip(reg, zone, e, was, listing, eips, eips);
      }
    }
    assert listing[..|listing|] == listing;
  }

  method ServeZone(reg: CloudRegistry, ec2: Ec2, zone: string, listing: seq<Eip>, ghost was: Resources) returns (ok: bool)
    requires AliEips.Serving(reg.clusterName, was, reg.resources, listing, EipViews(ec2.addresses))
    modifies reg`resources, ec2`addresses
    ensures AliEips.Serving(reg.clusterName, was, reg.resources, listing, EipViews(ec2.addresses)) && old(reg.resources) <= reg.resources
    ensures ok ==> Has(reg.resources, InZone(ELASTIC_IP, zone))
    ensures Has(old(reg.resources), InZone(ELASTIC_IP, zone)) ==>
              ok && reg.resources == old(reg.resources) && ec2.addresses == old(ec2.addresses)
    ensures !ec2.faulty ==> ok
  {
    ghost var eips, addresses := EipViews(ec2.addresses), ec2.addresses;
    AdoptEips(reg, zone, listing, was, eips);
    if Has(reg.resources, InZone(ELASTIC_IP, zone)) {
      return true;
    }
    var a := ec2.AllocateAddress();
    if a.None? {
      return false;
    }
    EipViewsAppend(addresses, a.value);
    AliEips.NewIsUnrecorded(reg.clusterName, was, reg.resources, listing, eips, EipView(a.value));
    AliEips.RecordEip(reg, zone, EipView(a.value), was, listing, eips, EipViews(ec2.addresses));
    ok := true;
  }

  /** One address per zone: recorded ones are kept, then free unrecorded ones taken, then new ones allocated. */
  method CreateEips(reg: CloudRegistry, ec2: Ec2) returns (ok: bool)
    modifies reg`resources, ec2`addresses
    ensures OthersKept(old(reg.resources), reg.resources, ELASTIC_IP)
    ensures ok ==> AllListed(reg.resources, ELASTIC_IP, EipIds(EipViews(ec2.addresses)))
    ensures ok ==> ZonesServed(reg.resources, OfType(reg.resources, AVAILABILITY_ZONES))
    ensures AliEips.OneToOne(old(reg.resources)) ==> AliEips.OneToOne(reg.resources)
    ensures forall r :: r in reg.resources && r.kind == ELASTIC_IP ==>
                          AliEips.Sourced(r, old(reg.resources), EipViews(old(ec2.addresses)))
    ensures forall r :: r in reg.resources ==>
                          r in old(reg.resources) || AliEips.EipRecord(r, reg.clusterName, EipViews(ec2.addresses))
    ensures !ec2.faulty ==> ok
  {
    ok := ec2.Reachable();
    if !ok {
      return;
    }
    ghost var was := reg.resources;
    var listing := EipViews(ec2.addresses);
    PrunedIsLive(was, ELASTIC_IP, EipIds(listing));
    AliEips.PrunedOneToOne(was, EipIds(listing));
    reg.Prune(ELASTIC_IP, EipIds(listing));
    ghost var pruned := reg.resources;
    ok := ServeZones(reg, ec2, listing);
    AliEips.SourcedBefore(was, pruned, reg.resources, listing);
  }

  method ServeZones(reg: CloudRegistry, ec2: Ec2, listing: seq<Eip>) returns (ok: bool)
    requires listing == EipViews(ec2.addresses) && AllListed(reg.resources, ELASTIC_IP, EipIds(listing))
    modifies reg`resources, ec2`addresses
    ensures AliEips.Serving(reg.clusterName, old(reg.resources), reg.resources, listing, EipViews(ec2.addresses))
    ensures ok ==> ZonesServed(reg.resources, OfType(reg.resources, AVAILABILITY_ZONES))
    ensures !ec2.faulty ==> ok
  {
    ghost var was := reg.resources;
    var zones := OfType(reg.resources, AVAILABILITY_ZONES);
    AliEips.ServingStart(reg.clusterName, was, listing);
    for i := 0 to |zones|
      invariant zones == OfType(reg.resources, AVAILABILITY_ZONES)
      invariant AliEips.Serving(reg.clusterName, was, reg.resources, listing, EipViews(ec2.addresses))
      invariant ZonesServed(reg.resources, zones[..i])
    {
      ghost var mid := reg.resources;
      ok := ServeZone(reg, ec2, zones[i].name, listing, was);
      if !ok {
        return;
      }
      ServedStays(mid, reg.resources, zones, i);
    }
    assert zones[..|zones|] == zones;
    ok := true;
  }

  lemma {:induction false} ServedStays(was: Resources, now: Resources, zones: Resources, i: nat)
    requires was <= now && i < |zones| && ZonesServed(was, zones[..i]) && Has(now, InZone(ELASTIC_IP, zones[i].name))
    ensures ZonesServed(now, zones[..i + 1])
  {
  }
}
