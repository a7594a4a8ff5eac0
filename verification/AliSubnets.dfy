/** Settling the VPC and one private subnet per availability zone on Ali. */
module AliSubnets {
  import opened Wrappers
  import opened Registry
  import opened RegistryFacts
  import opened AliClouds
  import opened Cidr

  /** The cluster's address range: the text that listings are compared with, and what it parses to. */
  datatype ClusterRange = ClusterRange(text: string, parsed: CidrText)

  function VpcName(cluster: string): string { cluster + "-vpc" }

  function SubnetName(cluster: string, zone: string): string { cluster + "-" + zone + "-subnet" }

  /** Adds a resource; its key is drawn at random. */
  method Record(reg: CloudRegistry, r: CloudResource) returns (ghost id: string)
    modifies reg`resources
    ensures reg.resources == old(reg.resources) + [r.(id := id)]
    ensures OthersKept(old(reg.resources), reg.resources, r.kind)
    ensures forall refId :: Registered(old(reg.resources), r.kind, refId) ==> Registered(reg.resources, r.kind, refId)
    ensures Registered(reg.resources, r.kind, r.refId)
  {
    var key: string := *;
    AddKeepsOthers(reg.resources, r.(id := key));
    reg.AddCloudResource(r.(id := key));
    id := key;
  }

  // ---------- VPC ----------

  /** A listed VPC is recorded: the run finds nothing to do. */
  ghost predicate VpcSettled(rs: Resources, w: World) {
    exists v :: v in w.vpcs && Registered(rs, VPC, v.id)
  }

  /** One VPC is recorded under the cluster's name, it exists, and it has the cluster's range. */
  ghost predicate OwnVpc(rs: Resources, w: World, range: ClusterRange, cluster: string) {
    && (exists v :: v in w.vpcs && v.cidrBlock == range.text && |OfType(rs, VPC)| == 1 && OfType(rs, VPC)[0].refId == v.id)
    && OfType(rs, VPC)[0].name == VpcName(cluster)
  }

  lemma {:induction false} OwnVpcIsSettled(rs: Resources, w: World, range: ClusterRange, cluster: string)
    requires OwnVpc(rs, w, range, cluster)
    ensures VpcSettled(rs, w)
  {
  }

  lemma {:induction false} FirstVpcRecorded(rs: Resources, r: CloudResource)
    requires r.kind == VPC && OfType(rs, VPC) == []
    ensures OfType(rs + [r], VPC) == [r]
  {
    OfTypeConcat(rs, [r], VPC);
  }

  method CreateVpc(reg: CloudRegistry, cloud: AliCloud, range: ClusterRange) returns (ok: bool)
    modifies reg`resources, cloud
    ensures OthersKept(old(reg.resources), reg.resources, VPC)
    ensures cloud.world == old(cloud.world).(vpcs := cloud.world.vpcs)
    ensures VpcSettled(old(reg.resources), old(cloud.world)) ==>
              reg.resources == old(reg.resources) && cloud.world == old(cloud.world) && cloud.calls == old(cloud.calls)
    ensures ok ==> VpcSettled(reg.resources, cloud.world)
    ensures ok && !VpcSettled(old(reg.resources), old(cloud.world)) ==> OwnVpc(reg.resources, cloud.world, range, reg.clusterName)
    ensures !cloud.faulty ==> ok
  {
    ok := cloud.Reachable();
    if !ok {
      return;
    }
    var vpcs := cloud.world.vpcs;
    for i := 0 to |vpcs|
      invariant forall j :: 0 <= j < i ==> !Registered(reg.resources, VPC, vpcs[j].id)
    {
      if ByRef(reg.resources, VPC, vpcs[i].id).Some? {
        return;
      }
    }
    RemoveWholeType(reg.resources, VPC);
    reg.DeleteCloudResource(VPC);
    ok := AdoptVpc(reg, cloud, range);
    if !ok {
      ok := MakeVpc(reg, cloud, range);
    }
    if ok {
      OwnVpcIsSettled(reg.resources, cloud.world, range, reg.clusterName);
    }
  }

  /** The first listed VPC with the cluster's range is tagged and recorded. */
  method AdoptVpc(reg: CloudRegistry, cloud: AliCloud, range: ClusterRange) returns (found: bool)
    requires OfType(reg.resources, VPC) == []
    modifies reg`resources, cloud
    ensures OthersKept(old(reg.resources), reg.resources, VPC) && cloud.world == old(cloud.world)
    ensures found ==> OwnVpc(reg.resources, cloud.world, range, reg.clusterName)
    ensures found <==> exists v :: v in cloud.world.vpcs && v.cidrBlock == range.text
    ensures !found ==> reg.resources == old(reg.resources) && cloud.calls == old(cloud.calls)
  {
    var vpcs := cloud.world.vpcs;
    for i := 0 to |vpcs|
      invariant forall j :: 0 <= j < i ==> vpcs[j].cidrBlock != range.text
    {
      if vpcs[i].cidrBlock == range.text {
        var tagged := cloud.TagResource(vpcs[i].id);  // a failure is ignored
        var tags := NO_TAGS.(name := Some(VpcName(reg.clusterName)));
        ghost var was := reg.resources;
        ghost var key := Record(reg, CloudResource("", VpcName(reg.clusterName), vpcs[i].id, "", VPC, tags, ""));
        FirstVpcRecorded(was, CloudResource(key, VpcName(reg.clusterName), vpcs[i].id, "", VPC, tags, ""));
        assert vpcs[i] in cloud.world.vpcs;
        return true;
      }
    }
    found := false;
  }

  method MakeVpc(reg: CloudRegistry, cloud: AliCloud, range: ClusterRange) returns (ok: bool)
    requires OfType(reg.resources, VPC) == []
    modifies reg`resources, cloud
    ensures OthersKept(old(reg.resources), reg.resources, VPC)
    ensures cloud.world == old(cloud.world).(vpcs := cloud.world.vpcs)
    ensures ok ==> OwnVpc(reg.resources, cloud.world, range, reg.clusterName)
    ensures !ok ==> reg.resources == old(reg.resources)
    ensures !cloud.faulty ==> ok
  {
    var id := cloud.CreateVpcCall(range.text);
    if id.None? {
      return false;
    }
    ok := cloud.Reachable();  // until it is available
    if !ok {
      return;
    }
    assert cloud.world.vpcs[|cloud.world.vpcs| - 1] == VpcInfo(id.value, range.text);
    ghost var was := reg.resources;
    ghost var key := Record(reg, CloudResource("", VpcName(reg.clusterName), id.value, "", VPC, NO_TAGS, ""));
    FirstVpcRecorded(was, CloudResource(key, VpcName(reg.clusterName), id.value, "", VPC, NO_TAGS, ""));
  }

  // ---------- subnets: what a run aims at ----------

  predicate Complete(v: VSwitch) { v.id.Some? && v.cidr.Some? }

  /** The first complete switch of the zone. */
  function FirstIn(vs: seq<VSwitch>, zone: string): (r: Option<VSwitch>)
    ensures r.Some? ==> r.value in vs && Complete(r.value) && r.value.zone == Some(zone)
  {
    if vs == [] then None
    else if Complete(vs[0]) && vs[0].zone == Some(zone) then Some(vs[0])
    else FirstIn(vs[1..], zone)
  }

  lemma {:induction false} FirstInIsFirst(vs: seq<VSwitch>, zone: string)
    ensures FirstIn(vs, zone).None? ==> forall v :: v in vs ==> !(Complete(v) && v.zone == Some(zone))
    ensures FirstIn(vs, zone).Some? ==>
              exists k :: 0 <= k < |vs| && vs[k] == FirstIn(vs, zone).value
                          && forall j :: 0 <= j < k ==> !(Complete(vs[j]) && vs[j].zone == Some(zone))
  {
    if vs != [] && !(Complete(vs[0]) && vs[0].zone == Some(zone)) {
      FirstInIsFirst(vs[1..], zone);
      if FirstIn(vs, zone).Some? {
        var k :| 0 <= k < |vs[1..]| && vs[1..][k] == FirstIn(vs, zone).value
                 && forall j :: 0 <= j < k ==> !(Complete(vs[1..][j]) && vs[1..][j].zone == Some(zone));
        assert vs[k + 1] == FirstIn(vs, zone).value;
        assert forall j :: 0 < j < k + 1 ==> vs[j] == vs[1..][j - 1];
      }
    }
  }

  lemma {:induction false} FirstInConcat(a: seq<VSwitch>, b: seq<VSwitch>, zone: string)
    ensures FirstIn(a + b, zone) == if FirstIn(a, zone).Some? then FirstIn(a, zone) else FirstIn(b, zone)
  {
    if a == [] {
      assert a + b == b;
    } else {
      assert (a + b)[1..] == a[1..] + b;
      FirstInConcat(a[1..], b, zone);
    }
  }

  /** Every zone's first switch is recorded. */
  ghost predicate FirstsRecorded(rs: Resources, listed: seq<VSwitch>) {
    forall z: string :: FirstIn(listed, z).Some? ==> Registered(rs, SUBNET, SwitchId(FirstIn(listed, z).value))
  }

  /** Every availability zone has a recorded subnet of its name. */
  ghost predicate ZonesNamed(rs: Resources, zones: Resources, cluster: string) {
    forall i :: 0 <= i < |zones| ==> Has(rs, Named(SUBNET, SubnetName(cluster, zones[i].refId)))
  }

  ghost predicate SubnetsFit(rs: Resources, cluster: string, listed: seq<VSwitch>) {
    && AllListed(rs, SUBNET, SwitchIds(listed))
    && FirstsRecorded(rs, listed)
    && ZonesNamed(rs, OfType(rs, AVAILABILITY_ZONES), cluster)
  }

  ghost predicate SubnetsSettled(rs: Resources, w: World, cluster: string) {
    var vpc := Find(rs, OfKind(VPC));
    vpc.Some? && SubnetsFit(rs, cluster, SwitchesOf(w, vpc.value.refId))
  }

  /** Each zone then has a recorded subnet with its name that is live in the cloud. */
  lemma {:induction false} EachZoneHasLiveSubnet(rs: Resources, w: World, cluster: string, zone: CloudResource)
    requires SubnetsSettled(rs, w, cluster) && zone in rs && zone.kind == AVAILABILITY_ZONES
    ensures exists r, v :: r in rs && r.kind == SUBNET && r.tags.name == Some(SubnetName(cluster, zone.refId))
                           && v in w.vswitches && SwitchId(v) == r.refId
  {
    var zones := OfType(rs, AVAILABILITY_ZONES);
    assert zone in zones;
    var i :| 0 <= i < |zones| && zones[i] == zone;
    var q := Named(SUBNET, SubnetName(cluster, zones[i].refId));
    assert Has(rs, q);
    var r := rs[FindIndex(rs, q)];
    assert r in rs && Matches(r, q);
    assert r.refId in SwitchIds(SwitchesOf(w, Find(rs, OfKind(VPC)).value.refId));
  }

  predicate IsNamed(rs: Resources, cluster: string, zone: string) {
    Has(rs, Named(SUBNET, SubnetName(cluster, zone)))
  }

  lemma {:induction false} NamesDiffer(cluster: string, a: string, b: string)
    requires SubnetName(cluster, a) == SubnetName(cluster, b)
    ensures a == b
  {
    var n := |cluster| + 1;
    assert SubnetName(cluster, a)[n..][..|SubnetName(cluster, a)| - n - 7] == a;
    assert SubnetName(cluster, b)[n..][..|SubnetName(cluster, b)| - n - 7] == b;
  }

  /** Switches go by their ids. */
  predicate DistinctSwitches(vs: seq<VSwitch>) {
    forall v, u :: v in vs && u in vs && v.id.Some? && v.id == u.id ==> v == u
  }

  /** The ranges of the complete switches. */
  function RangesOf(vs: seq<VSwitch>): (cidrs: seq<CidrText>)
    ensures forall c :: c in cidrs <==> exists v :: v in vs && Complete(v) && v.cidr.value == c
  {
    if vs == [] then []
    else (if Complete(vs[0]) then [vs[0].cidr.value] else []) + RangesOf(vs[1..])
  }

  /** After pruning, the zone has a subnet of its name, or its first switch is not recorded and will get that name. */
  predicate NamedLater(pruned: Resources, listing: seq<VSwitch>, cluster: string, zone: string) {
    || IsNamed(pruned, cluster, zone)
    || (FirstIn(listing, zone).Some? && !Registered(pruned, SUBNET, SwitchId(FirstIn(listing, zone).value)))
  }

  /** The zones a run makes a new switch for. */
  function Missing(pruned: Resources, zones: seq<string>, listing: seq<VSwitch>, cluster: string): set<string> {
    set z | z in zones && !NamedLater(pruned, listing, cluster, z)
  }

  /** There are as many free /24 blocks as zones without a switch. */
  ghost predicate Roomy(pruned: Resources, zones: seq<string>, listing: seq<VSwitch>, cluster: string, range: ClusterRange) {
    |Missing(pruned, zones, listing, cluster)| <= |FreeNumbers(range.parsed, RangesOf(listing))|
  }

  /** The zones go by their references. */
  function RefIds(zones: Resources): (ids: seq<string>)
    ensures |ids| == |zones| && forall i :: 0 <= i < |ids| ==> ids[i] == zones[i].refId
  {
    seq(|zones|, i requires 0 <= i < |zones| => zones[i].refId)
  }

  /** The zones that have no subnet of their name. */
  function Lacking(rs: Resources, zones: seq<string>, cluster: string): set<string> {
    set z | z in zones && !IsNamed(rs, cluster, z)
  }

  /** New switches are carved out of the range, clear of everything listed and of one another. */
  ghost predicate Carved(created: seq<VSwitch>, listed: seq<VSwitch>, range: ClusterRange) {
    && (forall i :: 0 <= i < |created| ==> CarvedOne(created[i], listed, range))
    && (forall i, j :: 0 <= i < j < |created| ==> !Meets(created[i].cidr.value.net, created[j].cidr.value.net))
  }

  ghost predicate CarvedOne(v: VSwitch, listed: seq<VSwitch>, range: ClusterRange) {
    && Complete(v) && v.zone.Some? && v.cidr.value.Good? && v.cidr.value.net.ones == 24
    && range.parsed.Good? && Inside(v.cidr.value.net, range.parsed.net)
    && forall u :: u in listed && Complete(u) ==> u.cidr.value.Good? && !Meets(v.cidr.value.net, u.cidr.value.net)
  }

  /** A private subnet of the zone, as the code records it. */
  predicate SubnetRecord(r: CloudResource, cluster: string, zone: string) {
    && r.kind == SUBNET && r.name == SubnetName(cluster, zone)
    && r.tags == Tags(Some(SubnetName(cluster, zone)), Some(PRIVATE), Some(zone))
  }

  /** It stands for one of the switches, and is tagged with that switch's zone. */
  ghost predicate Documents(r: CloudResource, cluster: string, vs: seq<VSwitch>) {
    exists v :: v in vs && v.zone.Some? && SwitchId(v) == r.refId && SubnetRecord(r, cluster, v.zone.value)
  }

  /** Every entry that is new documents a switch. */
  ghost predicate NewDocumented(was: Resources, now: Resources, cluster: string, vs: seq<VSwitch>) {
    forall r :: r in now ==> r in was || Documents(r, cluster, vs)
  }

  lemma {:induction false} DocumentedTwice(a: Resources, b: Resources, c: Resources, cluster: string, vs: seq<VSwitch>, ws: seq<VSwitch>)
    requires NewDocumented(a, b, cluster, vs) && NewDocumented(b, c, cluster, ws)
    ensures NewDocumented(a, c, cluster, vs + ws)
  {
    forall r | Documents(r, cluster, vs) || Documents(r, cluster, ws) ensures Documents(r, cluster, vs + ws) {
      var v :| (v in vs || v in ws) && v.zone.Some? && SwitchId(v) == r.refId && SubnetRecord(r, cluster, v.zone.value);
      assert v in vs + ws;
    }
  }

  // ---------- subnets: the run ----------

  /** All complete ranges are listed, and each zone has its first complete switch. */
  ghost predicate Surveyed(listed: seq<VSwitch>, cidrs: seq<CidrText>, perZone: map<string, VSwitch>) {
    && (forall c :: c in cidrs <==> exists v :: v in listed && Complete(v) && v.cidr.value == c)
    && (forall z :: z in perZone <==> FirstIn(listed, z).Some?)
    && (forall z :: z in perZone ==> FirstIn(listed, z) == Some(perZone[z]))
  }

  /** The ranges in use, and the switch chosen for each zone. */
  method Survey(listed: seq<VSwitch>) returns (cidrs: seq<CidrText>, perZone: map<string, VSwitch>)
    ensures Surveyed(listed, cidrs, perZone)
  {
    cidrs, perZone := [], map[];
    for i := 0 to |listed|
      invariant Surveyed(listed[..i], cidrs, perZone)
    {
      var v := listed[i];
      SurveyStep(listed, i, cidrs, perZone);
      if Complete(v) {
        cidrs := cidrs + [v.cidr.value];
        if v.zone.Some? && v.zone.value !in perZone {
          perZone := perZone[v.zone.value := v];
        }
      }
    }
    assert listed[..|listed|] == listed;
  }

  lemma {:induction false} SurveyStep(listed: seq<VSwitch>, i: nat, cidrs: seq<CidrText>, perZone: map<string, VSwitch>)
    requires i < |listed| && Surveyed(listed[..i], cidrs, perZone)
    ensures var v := listed[i];
            && (!Complete(v) ==> Surveyed(listed[..i + 1], cidrs, perZone))
            && (Complete(v) && (v.zone.None? || v.zone.value in perZone) ==> Surveyed(listed[..i + 1], cidrs + [v.cidr.value], perZone))
            && (Complete(v) && v.zone.Some? && v.zone.value !in perZone ==>
                  Surveyed(listed[..i + 1], cidrs + [v.cidr.value], perZone[v.zone.value := v]))
  {
    FirstInPrefix(listed, i);
  }

  lemma {:induction false} FirstInPrefix(listed: seq<VSwitch>, i: nat)
    requires i < |listed|
    ensures forall z :: FirstIn(listed[..i + 1], z)
                        == if FirstIn(listed[..i], z).Some? then FirstIn(listed[..i], z)
                           else if Complete(listed[i]) && listed[i].zone == Some(z) then Some(listed[i]) else None
    ensures forall v :: v in listed[..i + 1] <==> v in listed[..i] || v == listed[i]
  {
    assert listed[..i + 1] == listed[..i] + [listed[i]];
    forall z: string {
      FirstInConcat(listed[..i], [listed[i]], z);
    }
  }

  ghost predicate AdoptedFor(r: CloudResource, was: Resources, cluster: string, perZone: map<string, VSwitch>) {
    exists z :: z in perZone && r.refId == SwitchId(perZone[z]) && SubnetRecord(r, cluster, z) && !Registered(was, SUBNET, r.refId)
  }

  ghost predicate DistinctPerZone(perZone: map<string, VSwitch>) {
    forall y, z :: y in perZone && z in perZone && SwitchId(perZone[y]) == SwitchId(perZone[z]) ==> y == z
  }

  /** Records the chosen switches that are not recorded yet, zones taken in any order. */
  method AdoptSubnets(reg: CloudRegistry, cloud: AliCloud, perZone: map<string, VSwitch>)
    modifies reg`resources, cloud`calls
    ensures OthersKept(old(reg.resources), reg.resources, SUBNET)
    ensures forall z :: z in perZone ==> Registered(reg.resources, SUBNET, SwitchId(perZone[z]))
    ensures forall refId :: Registered(reg.resources, SUBNET, refId) ==>
                              Registered(old(reg.resources), SUBNET, refId) || exists z :: z in perZone && SwitchId(perZone[z]) == refId
    ensures DistinctRefs(old(reg.resources), SUBNET) ==> DistinctRefs(reg.resources, SUBNET)
    ensures (forall z :: z in perZone ==> Registered(old(reg.resources), SUBNET, SwitchId(perZone[z]))) ==>
              reg.resources == old(reg.resources) && cloud.calls == old(cloud.calls)
    ensures forall r :: r in reg.resources ==> r in old(reg.resources) || AdoptedFor(r, old(reg.resources), reg.clusterName, perZone)
    ensures old(reg.resources) <= reg.resources
    ensures DistinctPerZone(perZone) ==>
              forall z :: z in perZone && !Registered(old(reg.resources), SUBNET, SwitchId(perZone[z])) ==> IsNamed(reg.resources, reg.clusterName, z)
  {
    ghost var was := reg.resources;
    ghost var done: set<string> := {};
    var todo := perZone.Keys;
    while todo != {}
      invariant done + todo == perZone.Keys && done !! todo
      invariant Adopting(was, reg.resources, reg.clusterName, perZone, done)
      invariant (forall z :: z in perZone ==> Registered(was, SUBNET, SwitchId(perZone[z]))) ==>
                  reg.resources == was && cloud.calls == old(cloud.calls)
      decreases todo
    {
      var zone :| zone in todo;
      ghost var mid := reg.resources;
      AdoptSubnet(reg, cloud, zone, perZone[zone]);
      AdoptingStep(was, mid, reg.resources, reg.clusterName, perZone, done, zone);
      done, todo := done + {zone}, todo - {zone};
    }
  }

  /** What the adoption has done for the zones in done. */
  ghost predicate Adopting(was: Resources, now: Resources, cluster: string, perZone: map<string, VSwitch>, done: set<string>) {
    && OthersKept(was, now, SUBNET) && was <= now
    && (forall z :: z in perZone && z in done ==> Registered(now, SUBNET, SwitchId(perZone[z])))
    && (forall refId :: Registered(now, SUBNET, refId) ==>
                          Registered(was, SUBNET, refId) || exists z :: z in perZone && z in done && SwitchId(perZone[z]) == refId)
    && (DistinctRefs(was, SUBNET) ==> DistinctRefs(now, SUBNET))
    && (forall r :: r in now ==> r in was || AdoptedFor(r, was, cluster, perZone))
    && (DistinctPerZone(perZone) ==>
          forall z :: z in perZone && z in done && !Registered(was, SUBNET, SwitchId(perZone[z])) ==> IsNamed(now, cluster, z))
  }

  lemma {:induction false} AdoptingStep(was: Resources, mid: Resources, now: Resources, cluster: string, perZone: map<string, VSwitch>,
                                        done: set<string>, zone: string)
    requires Adopting(was, mid, cluster, perZone, done) && zone in perZone && zone !in done
    requires OthersKept(mid, now, SUBNET) && mid <= now && (DistinctRefs(mid, SUBNET) ==> DistinctRefs(now, SUBNET))
    requires forall refId :: Registered(now, SUBNET, refId) <==> Registered(mid, SUBNET, refId) || refId == SwitchId(perZone[zone])
    requires Registered(mid, SUBNET, SwitchId(perZone[zone])) ==> now == mid
    requires forall r :: r in now ==> r in mid || (r.refId == SwitchId(perZone[zone]) && SubnetRecord(r, cluster, zone))
    requires !Registered(mid, SUBNET, SwitchId(perZone[zone])) ==> IsNamed(now, cluster, zone)
    ensures Adopting(was, now, cluster, perZone, done + {zone})
  {
    NamedStays(mid, now, cluster);
    var id := SwitchId(perZone[zone]);
    if !Registered(mid, SUBNET, id) {
      RegisteredGrows(was, mid, id);
      assert forall r :: r in now && r !in mid ==> AdoptedFor(r, was, cluster, perZone);
    }
  }

  lemma {:induction false} RegisteredGrows(was: Resources, now: Resources, refId: string)
    requires was <= now
    ensures Registered(was, SUBNET, refId) ==> Registered(now, SUBNET, refId)
  {
  }

  lemma {:induction false} NamedStays(was: Resources, now: Resources, cluster: string)
    requires was <= now
    ensures forall z :: IsNamed(was, cluster, z) ==> IsNamed(now, cluster, z)
  {
    forall z | IsNamed(was, cluster, z) ensures IsNamed(now, cluster, z) {
      FindAppend(was, now[|was|..], Named(SUBNET, SubnetName(cluster, z)));
      assert was + now[|was|..] == now;
    }
  }

  method AdoptSubnet(reg: CloudRegistry, cloud: AliCloud, zone: string, v: VSwitch)
    modifies reg`resources, cloud`calls
    ensures OthersKept(old(reg.resources), reg.resources, SUBNET)
    ensures forall refId :: Registered(reg.resources, SUBNET, refId) <==>
                              Registered(old(reg.resources), SUBNET, refId) || refId == SwitchId(v)
    ensures DistinctRefs(old(reg.resources), SUBNET) ==> DistinctRefs(reg.resources, SUBNET)
    ensures Registered(old(reg.resources), SUBNET, SwitchId(v)) ==>
              reg.resources == old(reg.resources) && cloud.calls == old(cloud.calls)
    ensures forall r :: r in reg.resources ==>
                          r in old(reg.resources) || (r.refId == SwitchId(v) && SubnetRecord(r, reg.clusterName, zone))
    ensures old(reg.resources) <= reg.resources
    ensures !Registered(old(reg.resources), SUBNET, SwitchId(v)) ==> IsNamed(reg.resources, reg.clusterName, zone)
  {
    if ByRef(reg.resources, SUBNET, SwitchId(v)).Some? {
      return;
    }
    ghost var was := reg.resources;
    var name := SubnetName(reg.clusterName, zone);
    var tagged := cloud.TagResource(SwitchId(v));  // a failure is ignored
    var r := CloudResource("", name, SwitchId(v), "", SUBNET, Tags(Some(name), Some(PRIVATE), Some(zone)), "");
    ghost var key := Record(reg, r);
    NewIsFound(was, r.(id := key), Named(SUBNET, name));
    if DistinctRefs(was, SUBNET) {
      AddKeepsDistinct(was, r.(id := key));
    }
  }

  /** One zone's turn: nothing if a subnet of its name is recorded, else the least free /24 becomes its switch. */
  method CreateSubnet(reg: CloudRegistry, cloud: AliCloud, vpcId: string, range: ClusterRange, cidrs: seq<CidrText>, zone: string)
    returns (ok: bool, made: seq<VSwitch>)
    modifies reg`resources, cloud
    ensures OthersKept(old(reg.resources), reg.resources, SUBNET)
    ensures forall refId :: Registered(reg.resources, SUBNET, refId) <==>
                              Registered(old(reg.resources), SUBNET, refId) || refId in SwitchIds(made)
    ensures old(reg.resources) <= reg.resources
    ensures ok ==> Has(reg.resources, Named(SUBNET, SubnetName(reg.clusterName, zone)))
    ensures Has(old(reg.resources), Named(SUBNET, SubnetName(reg.clusterName, zone))) ==>
              ok && made == [] && reg.resources == old(reg.resources) && cloud.calls == old(cloud.calls)
    ensures cloud.world == old(cloud.world).(vswitches := old(cloud.world.vswitches) + made)
    ensures |made| <= 1
    ensures made != [] ==> ok && MadeFor(made[0], vpcId, range, cidrs, zone) && SwitchId(made[0]) !in SwitchIds(old(cloud.world.vswitches))
    ensures made != [] && DistinctRefs(old(reg.resources), SUBNET) && !Registered(old(reg.resources), SUBNET, SwitchId(made[0])) ==>
              DistinctRefs(reg.resources, SUBNET)
    ensures made == [] ==> reg.resources == old(reg.resources)
    ensures NewDocumented(old(reg.resources), reg.resources, reg.clusterName, made)
    ensures made != [] ==>
              cloud.calls == old(cloud.calls) + [CreateVSwitch(vpcId, SubnetName(reg.clusterName, zone), made[0].cidr.value.net, zone)]
    ensures made != [] ==> !IsNamed(old(reg.resources), reg.clusterName, zone) && FreeNumbers(range.parsed, cidrs) != {}
    ensures ok && !IsNamed(old(reg.resources), reg.clusterName, zone) ==> made != []
    ensures !cloud.faulty ==> (ok <==> IsNamed(old(reg.resources), reg.clusterName, zone) || FreeNumbers(range.parsed, cidrs) != {})
  {
    made := [];
    var name := SubnetName(reg.clusterName, zone);
    if Has(reg.resources, Named(SUBNET, name)) {
      return true, [];
    }
    var cidr := GenerateSubnet(range.parsed, cidrs);
    if cidr.Err? {
      return false, [];
    }
    var id := cloud.CreateVSwitchCall(vpcId, name, cidr.value, zone);
    if id.None? {
      return false, [];
    }
    made := [VSwitch(id, vpcId, Some(Good(cidr.value)), Some(zone))];
    OneSwitch(made[0]);
    RecordSubnet(reg, id.value, vpcId, zone);
    ok := true;
  }

  lemma {:induction false} OneSwitch(v: VSwitch)
    ensures SwitchIds([v]) == {SwitchId(v)}
  {
  }

  method RecordSubnet(reg: CloudRegistry, refId: string, vpcId: string, zone: string)
    modifies reg`resources
    ensures OthersKept(old(reg.resources), reg.resources, SUBNET) && old(reg.resources) <= reg.resources
    ensures forall r :: Registered(reg.resources, SUBNET, r) <==> Registered(old(reg.resources), SUBNET, r) || r == refId
    ensures Has(reg.resources, Named(SUBNET, SubnetName(reg.clusterName, zone)))
    ensures forall r :: r in reg.resources ==>
                          r in old(reg.resources) || (r.refId == refId && SubnetRecord(r, reg.clusterName, zone))
    ensures DistinctRefs(old(reg.resources), SUBNET) && !Registered(old(reg.resources), SUBNET, refId) ==>
              DistinctRefs(reg.resources, SUBNET)
  {
    ghost var was := reg.resources;
    var name := SubnetName(reg.clusterName, zone);
    var r := CloudResource("", name, refId, vpcId, SUBNET, Tags(Some(name), Some(PRIVATE), Some(zone)), "");
    ghost var key := Record(reg, r);
    NewIsFound(was, r.(id := key), Named(SUBNET, name));
    if DistinctRefs(was, SUBNET) && !Registered(was, SUBNET, refId) {
      AddKeepsDistinct(was, r.(id := key));
    }
  }

  ghost predicate MadeFor(v: VSwitch, vpcId: string, range: ClusterRange, cidrs: seq<CidrText>, zone: string) {
    && Complete(v) && v.vpcId == vpcId && v.zone == Some(zone)
    && v.cidr.value.Good? && v.cidr.value.net.ones == 24
    && range.parsed.Good? && Inside(v.cidr.value.net, range.parsed.net)
    && !Blocked(v.cidr.value.net, cidrs)
  }

  // ---------- subnets: the whole run ----------

  /** What the creation loop has done so far: its switches are new, of this VPC, and recorded; nothing recorded was dropped. */
  ghost predicate Grown(was: Resources, now: Resources, created: seq<VSwitch>, vpcId: string) {
    && OthersKept(was, now, SUBNET)
    && was <= now
    && (forall refId :: Registered(now, SUBNET, refId) <==> Registered(was, SUBNET, refId) || refId in SwitchIds(created))
    && (forall v :: v in created ==> v.vpcId == vpcId && Complete(v))
  }

  lemma {:induction false} GrownStep(was: Resources, mid: Resources, now: Resources, created: seq<VSwitch>, made: seq<VSwitch>, vpcId: string)
    requires Grown(was, mid, created, vpcId) && OthersKept(mid, now, SUBNET) && mid <= now
    requires forall refId :: Registered(now, SUBNET, refId) <==> Registered(mid, SUBNET, refId) || refId in SwitchIds(made)
    requires forall v :: v in made ==> v.vpcId == vpcId && Complete(v)
    ensures Grown(was, now, created + made, vpcId)
  {
  }

  lemma {:induction false} CarvedStep(created: seq<VSwitch>, v: VSwitch, listed: seq<VSwitch>, range: ClusterRange,
                                      vpcId: string, cidrs: seq<CidrText>, zone: string)
    requires Carved(created, listed, range) && MadeFor(v, vpcId, range, cidrs, zone)
    requires forall u :: u in listed && Complete(u) ==> u.cidr.value in cidrs
    requires forall u :: u in created ==> u.cidr.value in cidrs
    ensures Carved(created + [v], listed, range)
  {
  }

  lemma {:induction false} OnlyOfVpc(vs: seq<VSwitch>, vpcId: string)
    requires forall v :: v in vs ==> v.vpcId == vpcId
    ensures InVpc(vs, vpcId) == vs
  {
    if vs != [] {
      assert vs[0] in vs;
      forall v | v in vs[1..] ensures v.vpcId == vpcId {
        assert v in vs;
      }
      OnlyOfVpc(vs[1..], vpcId);
    }
  }

  lemma {:induction false} GrownFits(was: Resources, now: Resources, created: seq<VSwitch>, vpcId: string, listed: seq<VSwitch>)
    requires Grown(was, now, created, vpcId)
    requires AllListed(was, SUBNET, SwitchIds(listed)) && FirstsRecorded(was, listed)
    ensures AllListed(now, SUBNET, SwitchIds(listed + created)) && FirstsRecorded(now, listed + created)
  {
    assert SwitchIds(listed + created) == SwitchIds(listed) + SwitchIds(created);
    forall r | r in now && r.kind == SUBNET ensures r.refId in SwitchIds(listed + created) {
      assert Registered(now, SUBNET, r.refId);
    }
    forall z: string | FirstIn(listed + created, z).Some? ensures Registered(now, SUBNET, SwitchId(FirstIn(listed + created, z).value)) {
      FirstInConcat(listed, created, z);
    }
  }

  /** A fresh id is not recorded: what is recorded is listed or was just created. */
  lemma {:induction false} FreshIsUnrecorded(was: Resources, now: Resources, created: seq<VSwitch>, vpcId: string, vs: seq<VSwitch>, id: string)
    requires Grown(was, now, created, vpcId) && AllListed(was, SUBNET, SwitchIds(InVpc(vs, vpcId)))
    requires id !in SwitchIds(vs + created)
    ensures !Registered(now, SUBNET, id)
  {
  }

  /** Where the creation loop stands. */
  ghost predicate Creating(cluster: string, was: Resources, now: Resources, vs: seq<VSwitch>, vpcId: string, created: seq<VSwitch>,
                           cidrs: seq<CidrText>, range: ClusterRange) {
    && Grown(was, now, created, vpcId)
    && NewDocumented(was, now, cluster, created)
    && Carved(created, InVpc(vs, vpcId), range)
    && (forall v :: v in InVpc(vs, vpcId) && Complete(v) ==> v.cidr.value in cidrs)
    && (forall v :: v in created ==> v.cidr.value in cidrs)
    && (DistinctRefs(was, SUBNET) ==> DistinctRefs(now, SUBNET))
    && (DistinctSwitches(vs) ==> DistinctSwitches(vs + created))
  }

  lemma {:induction false} NewSwitch(vs: seq<VSwitch>, v: VSwitch)
    requires DistinctSwitches(vs) && SwitchId(v) !in SwitchIds(vs)
    ensures DistinctSwitches(vs + [v])
  {
  }

  lemma {:induction false} CreatingStep(cluster: string, was: Resources, mid: Resources, now: Resources, vs: seq<VSwitch>, vpcId: string, created: seq<VSwitch>,
                                        v: VSwitch, cidrs: seq<CidrText>, range: ClusterRange, zone: string)
    requires Creating(cluster, was, mid, vs, vpcId, created, cidrs, range) && NewDocumented(mid, now, cluster, [v])
    requires AllListed(was, SUBNET, SwitchIds(InVpc(vs, vpcId)))
    requires OthersKept(mid, now, SUBNET) && mid <= now
    requires forall refId :: Registered(now, SUBNET, refId) <==> Registered(mid, SUBNET, refId) || refId in SwitchIds([v])
    requires MadeFor(v, vpcId, range, cidrs, zone) && SwitchId(v) !in SwitchIds(vs + created)
    requires DistinctRefs(mid, SUBNET) && !Registered(mid, SUBNET, SwitchId(v)) ==> DistinctRefs(now, SUBNET)
    ensures Creating(cluster, was, now, vs, vpcId, created + [v], cidrs + [v.cidr.value], range)
  {
    DocumentedTwice(was, mid, now, cluster, created, [v]);
    GrownStep(was, mid, now, created, [v], vpcId);
    CarvedStep(created, v, InVpc(vs, vpcId), range, vpcId, cidrs, zone);
    FreshIsUnrecorded(was, mid, created, vpcId, vs, SwitchId(v));
    assert vs + (created + [v]) == (vs + created) + [v];
    if DistinctSwitches(vs) {
      NewSwitch(vs + created, v);
    }
  }

  lemma {:induction false} Appended(vs: seq<VSwitch>, created: seq<VSwitch>, made: seq<VSwitch>)
    requires |made| <= 1
    ensures (vs + created) + made == vs + (created + made)
    ensures made == [] ==> created + made == created
    ensures made != [] ==> made == [made[0]]
  {
  }

  /** After i zones: those have their names, and each one made took one free number. */
  ghost predicate Counted(cluster: string, was: Resources, now: Resources, zones: seq<string>, i: nat, made: nat,
                          cidrs: seq<CidrText>, range: ClusterRange, existing: seq<CidrText>) {
    && i <= |zones|
    && (forall z :: IsNamed(now, cluster, z) <==> IsNamed(was, cluster, z) || z in zones[..i])
    && made == |Lacking(was, zones[..i], cluster)|
    && |FreeNumbers(range.parsed, existing)| == |FreeNumbers(range.parsed, cidrs)| + made
  }

  lemma {:induction false} CountedSkip(cluster: string, was: Resources, now: Resources, zones: seq<string>, i: nat, made: nat,
                                       cidrs: seq<CidrText>, range: ClusterRange, existing: seq<CidrText>)
    requires Counted(cluster, was, now, zones, i, made, cidrs, range, existing) && i < |zones| && IsNamed(now, cluster, zones[i])
    ensures Counted(cluster, was, now, zones, i + 1, made, cidrs, range, existing)
  {
    assert zones[..i + 1] == zones[..i] + [zones[i]];
    assert Lacking(was, zones[..i + 1], cluster) == Lacking(was, zones[..i], cluster);
  }

  lemma {:induction false} CountedMake(cluster: string, was: Resources, mid: Resources, now: Resources, zones: seq<string>, i: nat, made: nat,
                                       v: VSwitch, vpcId: string, cidrs: seq<CidrText>, range: ClusterRange, existing: seq<CidrText>)
    requires Counted(cluster, was, mid, zones, i, made, cidrs, range, existing) && i < |zones| && !IsNamed(mid, cluster, zones[i])
    requires MadeFor(v, vpcId, range, cidrs, zones[i]) && FreeNumbers(range.parsed, cidrs) != {}
    requires mid <= now && NewDocumented(mid, now, cluster, [v]) && IsNamed(now, cluster, zones[i])
    ensures Counted(cluster, was, now, zones, i + 1, made + 1, cidrs + [v.cidr.value], range, existing)
  {
    assert zones[..i + 1] == zones[..i] + [zones[i]];
    NamedByRecord(mid, now, cluster, v, zones[i]);
    assert Lacking(was, zones[..i + 1], cluster) == Lacking(was, zones[..i], cluster) + {zones[i]};
    CarvingTakesOne(v.cidr.value.net, range.parsed, cidrs);
  }

  lemma {:induction false} NamedByRecord(mid: Resources, now: Resources, cluster: string, v: VSwitch, zone: string)
    requires mid <= now && NewDocumented(mid, now, cluster, [v]) && v.zone == Some(zone) && IsNamed(now, cluster, zone)
    ensures forall z :: IsNamed(now, cluster, z) <==> IsNamed(mid, cluster, z) || z == zone
  {
    NamedStays(mid, now, cluster);
    forall z | IsNamed(now, cluster, z) && !IsNamed(mid, cluster, z) ensures z == zone {
      var q := Named(SUBNET, SubnetName(cluster, z));
      HasIff(mid, q);
      var r := now[FindIndex(now, q)];
      assert r in now && Matches(r, q);
      assert Documents(r, cluster, [v]);
      NamesDiffer(cluster, z, zone);
    }
  }

  /** No free block is left for a zone that needs one: there are more such zones than blocks. */
  lemma {:induction false} CountedStuck(cluster: string, was: Resources, now: Resources, zones: seq<string>, i: nat, made: nat,
                                        cidrs: seq<CidrText>, range: ClusterRange, existing: seq<CidrText>)
    requires Counted(cluster, was, now, zones, i, made, cidrs, range, existing) && i < |zones| && !IsNamed(now, cluster, zones[i])
    requires FreeNumbers(range.parsed, cidrs) == {}
    ensures |Lacking(was, zones, cluster)| > |FreeNumbers(range.parsed, existing)|
  {
    var some := Lacking(was, zones[..i], cluster) + {zones[i]};
    forall z | z in some ensures z in Lacking(was, zones, cluster) {
      assert z in zones[..i] ==> z in zones;
    }
    SmallerSet(some, Lacking(was, zones, cluster));
  }

  lemma {:induction false} SmallerSet<T>(a: set<T>, b: set<T>)
    requires a <= b
    ensures |a| <= |b|
  {
    assert b == a + (b - a);
  }

  /** The ranges the made switches take. */
  function TakenBy(made: seq<VSwitch>): seq<CidrText> {
    if made != [] && Complete(made[0]) then [made[0].cidr.value] else []
  }

  lemma {:induction false} CreatingTurn(cluster: string, was: Resources, mid: Resources, now: Resources, vs: seq<VSwitch>, vpcId: string, created: seq<VSwitch>,
                                        made: seq<VSwitch>, cidrs: seq<CidrText>, range: ClusterRange, zone: string)
    requires Creating(cluster, was, mid, vs, vpcId, created, cidrs, range) && AllListed(was, SUBNET, SwitchIds(InVpc(vs, vpcId)))
    requires |made| <= 1 && (made == [] ==> now == mid)
    requires made != [] ==>
               && NewDocumented(mid, now, cluster, made) && OthersKept(mid, now, SUBNET) && mid <= now
               && (forall refId :: Registered(now, SUBNET, refId) <==> Registered(mid, SUBNET, refId) || refId in SwitchIds(made))
               && MadeFor(made[0], vpcId, range, cidrs, zone) && SwitchId(made[0]) !in SwitchIds(vs + created)
               && (DistinctRefs(mid, SUBNET) && !Registered(mid, SUBNET, SwitchId(made[0])) ==> DistinctRefs(now, SUBNET))
    ensures Creating(cluster, was, now, vs, vpcId, created + made, cidrs + TakenBy(made), range)
  {
    if made == [] {
      assert created + made == created && cidrs + TakenBy(made) == cidrs;
    } else {
      assert made == [made[0]];
      CreatingStep(cluster, was, mid, now, vs, vpcId, created, made[0], cidrs, range, zone);
    }
  }

  /** One turn of the creation loop. */
  method CreateNext(reg: CloudRegistry, cloud: AliCloud, vpcId: string, range: ClusterRange, zones: Resources, i: nat,
                    created: seq<VSwitch>, cidrs: seq<CidrText>, ghost was: Resources, ghost vs: seq<VSwitch>, ghost existing: seq<CidrText>)
    returns (ok: bool, created': seq<VSwitch>, cidrs': seq<CidrText>)
    requires Counted(reg.clusterName, was, reg.resources, RefIds(zones), i, |created|, cidrs, range, existing)
    requires Creating(reg.clusterName, was, reg.resources, vs, vpcId, created, cidrs, range) && cloud.world.vswitches == vs + created
    requires AllListed(was, SUBNET, SwitchIds(InVpc(vs, vpcId)))
    requires i < |zones|
    modifies reg`resources, cloud
    ensures Creating(reg.clusterName, was, reg.resources, vs, vpcId, created', cidrs', range)
    ensures cloud.world == old(cloud.world).(vswitches := vs + created')
    ensures ok ==> Counted(reg.clusterName, was, reg.resources, RefIds(zones), i + 1, |created'|, cidrs', range, existing)
    ensures !ok && !cloud.faulty ==> |Lacking(was, RefIds(zones), reg.clusterName)| > |FreeNumbers(range.parsed, existing)|
    ensures Has(old(reg.resources), Named(SUBNET, SubnetName(reg.clusterName, zones[i].refId))) ==>
              ok && created' == created && reg.resources == old(reg.resources) && cloud.calls == old(cloud.calls)
  {
    ghost var mid := reg.resources;
    var made;
    ok, made := CreateSubnet(reg, cloud, vpcId, range, cidrs, zones[i].refId);
    created', cidrs' := created + made, cidrs + TakenBy(made);
    Appended(vs, created, made);
    CountTurn(reg.clusterName, was, mid, reg.resources, RefIds(zones), i, |created|, made, vpcId, cidrs, range, existing);
    CreatingTurn(reg.clusterName, was, mid, reg.resources, vs, vpcId, created, made, cidrs, range, zones[i].refId);
  }

  lemma {:induction false} CountTurn(cluster: string, was: Resources, mid: Resources, now: Resources, zones: seq<string>, i: nat, before: nat,
                                     made: seq<VSwitch>, vpcId: string, cidrs: seq<CidrText>, range: ClusterRange, existing: seq<CidrText>)
    requires Counted(cluster, was, mid, zones, i, before, cidrs, range, existing) && i < |zones| && |made| <= 1
    requires made != [] && IsNamed(now, cluster, zones[i]) ==>
               && !IsNamed(mid, cluster, zones[i]) && MadeFor(made[0], vpcId, range, cidrs, zones[i])
               && FreeNumbers(range.parsed, cidrs) != {}
               && mid <= now && NewDocumented(mid, now, cluster, made)
    requires made == [] ==> now == mid
    ensures (made != [] && IsNamed(now, cluster, zones[i])) || (made == [] && IsNamed(mid, cluster, zones[i])) ==>
              Counted(cluster, was, now, zones, i + 1, before + |made|, cidrs + TakenBy(made), range, existing)
    ensures !IsNamed(mid, cluster, zones[i]) && FreeNumbers(range.parsed, cidrs) == {} ==>
              |Lacking(was, zones, cluster)| > |FreeNumbers(range.parsed, existing)|
  {
    if made != [] && IsNamed(now, cluster, zones[i]) {
      assert made == [made[0]];
      CountedMake(cluster, was, mid, now, zones, i, before, made[0], vpcId, cidrs, range, existing);
    }
    if made == [] && IsNamed(mid, cluster, zones[i]) {
      assert cidrs + TakenBy(made) == cidrs;
      CountedSkip(cluster, was, mid, zones, i, before, cidrs, range, existing);
    }
    if !IsNamed(mid, cluster, zones[i]) && FreeNumbers(range.parsed, cidrs) == {} {
      CountedStuck(cluster, was, mid, zones, i, before, cidrs, range, existing);
    }
  }

  method CreateMissing(reg: CloudRegistry, cloud: AliCloud, vpcId: string, range: ClusterRange, existing: seq<CidrText>)
    returns (ok: bool, created: seq<VSwitch>)
    requires forall v :: v in SwitchesOf(cloud.world, vpcId) && Complete(v) ==> v.cidr.value in existing
    requires AllListed(reg.resources, SUBNET, SwitchIds(SwitchesOf(cloud.world, vpcId)))
    modifies reg`resources, cloud
    ensures Grown(old(reg.resources), reg.resources, created, vpcId)
    ensures NewDocumented(old(reg.resources), reg.resources, reg.clusterName, created)
    ensures cloud.world == old(cloud.world).(vswitches := old(cloud.world.vswitches) + created)
    ensures Carved(created, SwitchesOf(old(cloud.world), vpcId), range)
    ensures DistinctRefs(old(reg.resources), SUBNET) ==> DistinctRefs(reg.resources, SUBNET)
    ensures DistinctSwitches(old(cloud.world.vswitches)) ==> DistinctSwitches(cloud.world.vswitches)
    ensures ok ==> ZonesNamed(reg.resources, OfType(reg.resources, AVAILABILITY_ZONES), reg.clusterName)
    ensures ok || !cloud.faulty ==>
              (ok <==> |Lacking(old(reg.resources), RefIds(OfType(old(reg.resources), AVAILABILITY_ZONES)), reg.clusterName)| <= |FreeNumbers(range.parsed, existing)|)
    ensures ZonesNamed(old(reg.resources), OfType(old(reg.resources), AVAILABILITY_ZONES), reg.clusterName) ==>
              ok && created == [] && reg.resources == old(reg.resources) && cloud.calls == old(cloud.calls)
  {
    var zones := OfType(reg.resources, AVAILABILITY_ZONES);
    ok, created := CreateForZones(reg, cloud, vpcId, range, existing, zones);
  }

  /** The creation loop. */
  method CreateForZones(reg: CloudRegistry, cloud: AliCloud, vpcId: string, range: ClusterRange, existing: seq<CidrText>, zones: Resources)
    returns (ok: bool, created: seq<VSwitch>)
    requires forall v :: v in InVpc(cloud.world.vswitches, vpcId) && Complete(v) ==> v.cidr.value in existing
    requires AllListed(reg.resources, SUBNET, SwitchIds(InVpc(cloud.world.vswitches, vpcId)))
    modifies reg`resources, cloud
    ensures exists cidrs ::
              Creating(reg.clusterName, old(reg.resources), reg.resources, old(cloud.world.vswitches), vpcId, created, cidrs, range)
    ensures cloud.world == old(cloud.world).(vswitches := old(cloud.world.vswitches) + created)
    ensures ok ==> ZonesNamed(reg.resources, zones, reg.clusterName)
    ensures ok || !cloud.faulty ==> (ok <==> |Lacking(old(reg.resources), RefIds(zones), reg.clusterName)| <= |FreeNumbers(range.parsed, existing)|)
    ensures ZonesNamed(old(reg.resources), zones, reg.clusterName) ==>
              ok && created == [] && reg.resources == old(reg.resources) && cloud.calls == old(cloud.calls)
  {
    ghost var was, vs := reg.resources, cloud.world.vswitches;
    ghost var nothingToDo := ZonesNamed(was, zones, reg.clusterName);
    var cidrs := existing;
    created := [];
    assert vs + created == vs;
    CountingStart(reg.clusterName, was, RefIds(zones), existing, range);
    for i := 0 to |zones|
      invariant Creating(reg.clusterName, was, reg.resources, vs, vpcId, created, cidrs, range)
      invariant cloud.world == old(cloud.world).(vswitches := vs + created)
      invariant Counted(reg.clusterName, was, reg.resources, RefIds(zones), i, |created|, cidrs, range, existing)
      invariant nothingToDo ==> created == [] && reg.resources == was && cloud.calls == old(cloud.calls)
    {
      ok, created, cidrs := CreateNext(reg, cloud, vpcId, range, zones, i, created, cidrs, was, vs, existing);
      if !ok {
        return;
      }
    }
    CountedAll(reg.clusterName, was, reg.resources, zones, |created|, cidrs, range, existing);
    ok := true;
  }

  lemma {:induction false} CountedAll(cluster: string, was: Resources, now: Resources, zones: Resources, made: nat,
                                      cidrs: seq<CidrText>, range: ClusterRange, existing: seq<CidrText>)
    requires Counted(cluster, was, now, RefIds(zones), |zones|, made, cidrs, range, existing)
    ensures ZonesNamed(now, zones, cluster) && |Lacking(was, RefIds(zones), cluster)| <= |FreeNumbers(range.parsed, existing)|
  {
    var ids := RefIds(zones);
    assert ids[..|zones|] == ids;
    forall i | 0 <= i < |zones| ensures IsNamed(now, cluster, zones[i].refId) {
      assert ids[i] in ids;
    }
  }

  lemma {:induction false} CountingStart(cluster: string, was: Resources, zones: seq<string>, existing: seq<CidrText>, range: ClusterRange)
    ensures Counted(cluster, was, was, zones, 0, 0, existing, range, existing)
  {
    assert zones[..0] == [];
    assert Lacking(was, [], cluster) == {};
  }

  /**
   Prunes subnets the cloud no longer has, adopts the first switch of each zone, creates what is
   missing. listed is false when the listing failed or answered with another status than 200;
   in the second case the run reports success.
   */
  method CreateSubnets(reg: CloudRegistry, cloud: AliCloud, range: ClusterRange) returns (ok: bool, listed: bool, created: seq<VSwitch>)
    modifies reg`resources, cloud
    ensures OthersKept(old(reg.resources), reg.resources, SUBNET)
    ensures cloud.world == old(cloud.world).(vswitches := old(cloud.world.vswitches) + created)
    ensures !listed ==> reg.resources == old(reg.resources) && created == [] && cloud.calls == old(cloud.calls)
    ensures listed ==> Find(old(reg.resources), OfKind(VPC)).Some?
    ensures listed ==> Carved(created, SwitchesOf(old(cloud.world), Find(old(reg.resources), OfKind(VPC)).value.refId), range)
    ensures listed ==> forall v :: v in created ==> v.vpcId == Find(old(reg.resources), OfKind(VPC)).value.refId
    ensures ok && listed ==> SubnetsSettled(reg.resources, cloud.world, reg.clusterName)
    ensures DistinctSwitches(old(cloud.world.vswitches)) ==> DistinctSwitches(cloud.world.vswitches)
    // Without faults it succeeds exactly if the range has room for the zones without a switch.
    ensures !cloud.faulty ==> (listed <==> Find(old(reg.resources), OfKind(VPC)).Some?) && (!listed ==> !ok)
    ensures (ok || !cloud.faulty) && listed ==>
              var listing := SwitchesOf(old(cloud.world), Find(old(reg.resources), OfKind(VPC)).value.refId);
              DistinctSwitches(listing) ==>
                (ok <==> Roomy(Pruned(old(reg.resources), SUBNET, SwitchIds(listing)), RefIds(OfType(old(reg.resources), AVAILABILITY_ZONES)),
                               listing, reg.clusterName, range))
    ensures listed && SubnetsSettled(old(reg.resources), old(cloud.world), reg.clusterName) ==> ok
    ensures NewDocumented(old(reg.resources), reg.resources, reg.clusterName, cloud.world.vswitches)
    ensures DistinctRefs(old(reg.resources), SUBNET) ==> DistinctRefs(reg.resources, SUBNET)
    ensures SubnetsSettled(old(reg.resources), old(cloud.world), reg.clusterName) ==>
              created == [] && reg.resources == old(reg.resources) && cloud.world == old(cloud.world) && cloud.calls == old(cloud.calls)
  {
    ghost var was := reg.resources;
    assert cloud.world.vswitches + [] == cloud.world.vswitches;
    var vpc := Find(reg.resources, OfKind(VPC));
    if vpc.None? {
      return false, false, [];
    }
    var reachable := cloud.Reachable();
    var statusOk := cloud.Reachable();
    if !reachable || !statusOk {
      return reachable, false, [];
    }
    ok, created := SettleSubnets(reg, cloud, vpc.value.refId, range);
    FindKept(was, reg.resources, OfKind(VPC));
    listed := true;
  }

  method SettleSubnets(reg: CloudRegistry, cloud: AliCloud, vpcId: string, range: ClusterRange) returns (ok: bool, created: seq<VSwitch>)
    modifies reg`resources, cloud
    ensures OthersKept(old(reg.resources), reg.resources, SUBNET)
    ensures cloud.world == old(cloud.world).(vswitches := old(cloud.world.vswitches) + created)
    ensures Carved(created, SwitchesOf(old(cloud.world), vpcId), range)
    ensures forall v :: v in created ==> v.vpcId == vpcId
    ensures DistinctSwitches(old(cloud.world.vswitches)) ==> DistinctSwitches(cloud.world.vswitches)
    ensures ok ==> SubnetsFit(reg.resources, reg.clusterName, SwitchesOf(cloud.world, vpcId))
    ensures NewDocumented(old(reg.resources), reg.resources, reg.clusterName, SwitchesOf(cloud.world, vpcId))
    ensures DistinctRefs(old(reg.resources), SUBNET) ==> DistinctRefs(reg.resources, SUBNET)
    ensures (ok || !cloud.faulty) && DistinctSwitches(SwitchesOf(old(cloud.world), vpcId)) ==>
              var listing := SwitchesOf(old(cloud.world), vpcId);
              ok <==> Roomy(Pruned(old(reg.resources), SUBNET, SwitchIds(listing)), RefIds(OfType(old(reg.resources), AVAILABILITY_ZONES)),
                            listing, reg.clusterName, range)
    ensures SubnetsFit(old(reg.resources), reg.clusterName, SwitchesOf(old(cloud.world), vpcId)) ==>
              ok && created == [] && reg.resources == old(reg.resources) && cloud.calls == old(cloud.calls)
  {
    ghost var was := reg.resources;
    var listing := SwitchesOf(cloud.world, vpcId);
    var cidrs := PruneAndAdopt(reg, cloud, listing);
    ghost var adopted := reg.resources;
    SameEntriesSameRoom(range.parsed, cidrs, RangesOf(listing));
    if DistinctSwitches(listing) {
      assert Lacking(adopted, RefIds(OfType(adopted, AVAILABILITY_ZONES)), reg.clusterName)
          == Missing(Pruned(was, SUBNET, SwitchIds(listing)), RefIds(OfType(was, AVAILABILITY_ZONES)), listing, reg.clusterName);
    }
    ok, created := CreateMissing(reg, cloud, vpcId, range, cidrs);
    CreatedSettle(was, adopted, reg.resources, created, vpcId, old(cloud.world.vswitches), reg.clusterName);
  }

  /** The two loops before the creation loop. existing are the ranges in use. */
  method PruneAndAdopt(reg: CloudRegistry, cloud: AliCloud, listing: seq<VSwitch>) returns (existing: seq<CidrText>)
    modifies reg`resources, cloud`calls
    ensures OthersKept(old(reg.resources), reg.resources, SUBNET)
    ensures forall c :: c in existing <==> c in RangesOf(listing)
    ensures DistinctSwitches(listing) ==>
              forall z :: IsNamed(reg.resources, reg.clusterName, z)
                          <==> NamedLater(Pruned(old(reg.resources), SUBNET, SwitchIds(listing)), listing, reg.clusterName, z)
    ensures AllListed(reg.resources, SUBNET, SwitchIds(listing)) && FirstsRecorded(reg.resources, listing)
    ensures NewDocumented(old(reg.resources), reg.resources, reg.clusterName, listing)
    ensures DistinctRefs(old(reg.resources), SUBNET) ==> DistinctRefs(reg.resources, SUBNET)
    ensures AllListed(old(reg.resources), SUBNET, SwitchIds(listing)) && FirstsRecorded(old(reg.resources), listing) ==>
              reg.resources == old(reg.resources) && cloud.calls == old(cloud.calls)
  {
    ghost var was := reg.resources;
    PrunedIsLive(was, SUBNET, SwitchIds(listing));
    reg.Prune(SUBNET, SwitchIds(listing));
    var perZone;
    existing, perZone := Survey(listing);
    ghost var pruned := reg.resources;
    AdoptSubnets(reg, cloud, perZone);
    AdoptedIsLive(pruned, reg.resources, listing, perZone);
    AdoptedDocument(was, pruned, reg.resources, listing, perZone, reg.clusterName);
    if DistinctSwitches(listing) {
      AdoptedNames(pruned, reg.resources, listing, perZone, reg.clusterName);
    }
  }

  /** After the adoption exactly the zones that were to get a name have one. */
  lemma {:induction false} AdoptedNames(pruned: Resources, now: Resources, listing: seq<VSwitch>, perZone: map<string, VSwitch>, cluster: string)
    requires DistinctSwitches(listing) && pruned <= now
    requires forall z :: z in perZone <==> FirstIn(listing, z).Some?
    requires forall z :: z in perZone ==> FirstIn(listing, z) == Some(perZone[z])
    requires forall r :: r in now ==> r in pruned || AdoptedFor(r, pruned, cluster, perZone)
    requires DistinctPerZone(perZone) ==>
               forall z :: z in perZone && !Registered(pruned, SUBNET, SwitchId(perZone[z])) ==> IsNamed(now, cluster, z)
    ensures forall z :: IsNamed(now, cluster, z) <==> NamedLater(pruned, listing, cluster, z)
  {
    forall y, z | y in perZone && z in perZone && SwitchId(perZone[y]) == SwitchId(perZone[z]) ensures y == z {
      assert FirstIn(listing, y) == Some(perZone[y]) && FirstIn(listing, z) == Some(perZone[z]);
    }
    NamedStays(pruned, now, cluster);
    forall z | IsNamed(now, cluster, z) && !IsNamed(pruned, cluster, z) ensures NamedLater(pruned, listing, cluster, z) {
      NewlyNamed(pruned, now, perZone, cluster, z);
      assert FirstIn(listing, z) == Some(perZone[z]);
    }
    forall z | NamedLater(pruned, listing, cluster, z) && !IsNamed(pruned, cluster, z) ensures IsNamed(now, cluster, z) {
      assert z in perZone && FirstIn(listing, z) == Some(perZone[z]);
    }
  }

  lemma {:induction false} NewlyNamed(pruned: Resources, now: Resources, perZone: map<string, VSwitch>, cluster: string, zone: string)
    requires IsNamed(now, cluster, zone) && !IsNamed(pruned, cluster, zone)
    requires forall r :: r in now ==> r in pruned || AdoptedFor(r, pruned, cluster, perZone)
    ensures zone in perZone && !Registered(pruned, SUBNET, SwitchId(perZone[zone]))
  {
    var q := Named(SUBNET, SubnetName(cluster, zone));
    HasIff(pruned, q);
    var r := now[FindIndex(now, q)];
    assert r in now && Matches(r, q);
    var z :| z in perZone && r.refId == SwitchId(perZone[z]) && SubnetRecord(r, cluster, z) && !Registered(pruned, SUBNET, r.refId);
    NamesDiffer(cluster, z, zone);
  }

  /** After the creation loop: what is recorded is listed, first switches are recorded, new entries document switches. */
  lemma {:induction false} CreatedSettle(was: Resources, adopted: Resources, now: Resources, created: seq<VSwitch>, vpcId: string,
                                         vs: seq<VSwitch>, cluster: string)
    requires Grown(adopted, now, created, vpcId)
    requires AllListed(adopted, SUBNET, SwitchIds(InVpc(vs, vpcId))) && FirstsRecorded(adopted, InVpc(vs, vpcId))
    requires NewDocumented(was, adopted, cluster, InVpc(vs, vpcId)) && NewDocumented(adopted, now, cluster, created)
    ensures AllListed(now, SUBNET, SwitchIds(InVpc(vs + created, vpcId))) && FirstsRecorded(now, InVpc(vs + created, vpcId))
    ensures NewDocumented(was, now, cluster, InVpc(vs + created, vpcId))
  {
    GrownFits(adopted, now, created, vpcId, InVpc(vs, vpcId));
    DocumentedTwice(was, adopted, now, cluster, InVpc(vs, vpcId), created);
    OnlyOfVpc(created, vpcId);
    InVpcConcat(vs, created, vpcId);
  }

  lemma {:induction false} AdoptedDocument(was: Resources, pruned: Resources, adopted: Resources, listing: seq<VSwitch>, perZone: map<string, VSwitch>, cluster: string)
    requires forall r :: r in pruned ==> r in was
    requires forall z :: z in perZone ==> FirstIn(listing, z) == Some(perZone[z])
    requires forall r :: r in adopted ==> r in pruned || AdoptedFor(r, pruned, cluster, perZone)
    ensures NewDocumented(was, adopted, cluster, listing)
  {
    forall r | r in adopted && r !in pruned ensures Documents(r, cluster, listing) {
      var z :| z in perZone && r.refId == SwitchId(perZone[z]) && SubnetRecord(r, cluster, z);
      assert FirstIn(listing, z) == Some(perZone[z]);
    }
  }

  lemma {:induction false} AdoptedIsLive(pruned: Resources, adopted: Resources, listing: seq<VSwitch>, perZone: map<string, VSwitch>)
    requires AllListed(pruned, SUBNET, SwitchIds(listing))
    requires forall z :: z in perZone <==> FirstIn(listing, z).Some?
    requires forall z :: z in perZone ==> FirstIn(listing, z) == Some(perZone[z])
    requires forall z :: z in perZone ==> Registered(adopted, SUBNET, SwitchId(perZone[z]))
    requires forall refId :: Registered(adopted, SUBNET, refId) ==>
                               Registered(pruned, SUBNET, refId) || exists z :: z in perZone && SwitchId(perZone[z]) == refId
    ensures AllListed(adopted, SUBNET, SwitchIds(listing)) && FirstsRecorded(adopted, listing)
  {
    forall r | r in adopted && r.kind == SUBNET ensures r.refId in SwitchIds(listing) {
      assert Registered(adopted, SUBNET, r.refId);
    }
  }
}
