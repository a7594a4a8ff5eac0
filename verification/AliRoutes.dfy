/** Settling one private route table per availability zone on Ali: bound to the zone's subnet, routed to its gateway. */
module AliRoutes {
  import opened Wrappers
  import opened Registry
  import opened RegistryFacts
  import opened AliClouds
  import AliSubnets
  import AliEips

  function TableName(cluster: string, zone: string): string { cluster + "-" + zone + "-route-table" }

  // ---------- what a run aims at ----------

  predicate IsPrivateTable(r: CloudResource) {
    r.kind == ROUTE_TABLE && r.tags.access == Some(PRIVATE)
  }

  /** The zone a table is tagged with; a missing tag reads as the empty text. */
  function ZoneOf(r: CloudResource): string { r.tags.zone.GetOr("") }

  function SubnetFor(r: CloudResource, rs: Resources): Option<CloudResource> {
    Find(rs, PrivateInZone(SUBNET, ZoneOf(r)))
  }

  function NatFor(r: CloudResource, rs: Resources): Option<CloudResource> {
    Find(rs, InZone(NAT_GATEWAY, ZoneOf(r)))
  }

  predicate Bound(r: CloudResource, rs: Resources, tables: seq<RouteTable>) {
    var subnet := SubnetFor(r, rs);
    subnet.Some? && subnet.value.refId in BoundTo(tables, r.refId)
  }

  predicate Routes(r: CloudResource, rs: Resources, tables: seq<RouteTable>) {
    var gateway := NatFor(r, rs);
    gateway.Some? && gateway.value.refId in HopsOf(tables, r.refId)
  }

  ghost predicate AllBound(rs: Resources, tables: seq<RouteTable>) {
    forall i :: 0 <= i < |rs| && IsPrivateTable(rs[i]) ==> Bound(rs[i], rs, tables)
  }

  ghost predicate AllRouted(rs: Resources, tables: seq<RouteTable>) {
    forall i :: 0 <= i < |rs| && IsPrivateTable(rs[i]) ==> Routes(rs[i], rs, tables)
  }

  ghost predicate TablesThere(rs: Resources, tables: seq<RouteTable>) {
    && AllListed(rs, ROUTE_TABLE, TableIds(tables))
    && AliEips.ZonesServed(rs, OfType(rs, AVAILABILITY_ZONES), ROUTE_TABLE)
  }

  ghost predicate RoutesSettled(rs: Resources, w: World) {
    && Find(rs, OfKind(VPC)).Some?
    && TablesThere(rs, w.tables)
    && AllBound(rs, w.tables)
    && AllRouted(rs, w.tables)
  }

  /**
   A registry in order: subnets have references of their own, tables zones of their own. A
   switch is bound to one table at a time, so two tables of a zone would take it from each other
   on every run.
   */
  ghost predicate Orderly(rs: Resources) {
    && DistinctRefs(rs, SUBNET)
    && AliEips.DistinctZones(rs, ROUTE_TABLE)
    && forall r :: r in rs && IsPrivateTable(r) ==> r.tags.zone.Some?
  }

  /** Two private tables then have different subnets. */
  lemma {:induction false} SubnetsDiffer(rs: Resources, i: nat, j: nat)
    requires Orderly(rs) && i < |rs| && j < |rs| && i != j && IsPrivateTable(rs[i]) && IsPrivateTable(rs[j])
    requires SubnetFor(rs[i], rs).Some? && SubnetFor(rs[j], rs).Some?
    ensures SubnetFor(rs[i], rs).value.refId != SubnetFor(rs[j], rs).value.refId
  {
  }

  /** A table of the zone can be bound and routed: a private subnet and a gateway of the zone are recorded. */
  predicate Linkable(rs: Resources, zone: string) {
    Has(rs, PrivateInZone(SUBNET, zone)) && Has(rs, InZone(NAT_GATEWAY, zone))
  }

  /** The recorded private tables can be bound and routed, and so can the tables a run makes. */
  predicate AllLinkable(rs: Resources) {
    && (forall r :: r in rs && IsPrivateTable(r) ==> Linkable(rs, ZoneOf(r)))
    && (forall z :: z in OfType(rs, AVAILABILITY_ZONES) && !Has(rs, InZone(ROUTE_TABLE, z.refId)) ==> Linkable(rs, z.refId))
  }

  /** The first n resources, where they are private tables, have a private subnet of their zone. */
  predicate SubnetsFor(rs: Resources, n: nat)
    requires n <= |rs|
  {
    forall j :: 0 <= j < n && IsPrivateTable(rs[j]) ==> SubnetFor(rs[j], rs).Some?
  }

  predicate GatewaysFor(rs: Resources, n: nat)
    requires n <= |rs|
  {
    forall j :: 0 <= j < n && IsPrivateTable(rs[j]) ==> NatFor(rs[j], rs).Some?
  }

  lemma {:induction false} LinkableKept(was: Resources, now: Resources, zone: string)
    requires OthersKept(was, now, ROUTE_TABLE)
    ensures Linkable(now, zone) <==> Linkable(was, zone)
  {
    FindKept(was, now, PrivateInZone(SUBNET, zone));
    FindKept(was, now, InZone(NAT_GATEWAY, zone));
  }

  // ---------- tables ----------

  /** An entry as the code records it: a private table named after its zone. */
  predicate TableRecord(r: CloudResource, cluster: string) {
    && IsPrivateTable(r) && r.tags.zone.Some?
    && r.name == TableName(cluster, r.tags.zone.value) && r.tags.name == Some(r.name)
  }

  /** What the creation loop has done so far. */
  ghost predicate Making(cluster: string, was: Resources, now: Resources, listing: seq<RouteTable>, tables: seq<RouteTable>) {
    && OthersKept(was, now, ROUTE_TABLE)
    && was <= now
    && AllListed(now, ROUTE_TABLE, TableIds(tables))
    && (forall id :: BoundTo(tables, id) == BoundTo(listing, id))
    && (forall r :: r in now ==> r in was || (TableRecord(r, cluster) && NewZone(was, r.tags.zone.value)))
    && (Orderly(was) ==> Orderly(now))
  }

  /** An availability zone that had no table. */
  predicate NewZone(rs: Resources, zone: string) {
    !Has(rs, InZone(ROUTE_TABLE, zone)) && exists z :: z in OfType(rs, AVAILABILITY_ZONES) && z.refId == zone
  }

  lemma {:induction false} NewTable(tables: seq<RouteTable>, id: CloudId)
    requires id !in TableIds(tables)
    ensures var out := tables + [RouteTable(id, [], [])];
            TableIds(out) == TableIds(tables) + {id} && forall x :: BoundTo(out, x) == BoundTo(tables, x)
  {
  }

  lemma {:induction false} AddKeepsOrderly(rs: Resources, r: CloudResource)
    requires Orderly(rs) && r.kind == ROUTE_TABLE && r.tags.zone.Some? && !Has(rs, InZone(ROUTE_TABLE, r.tags.zone.value))
    ensures Orderly(rs + [r])
  {
  }

  lemma {:induction false} MakingStep(cluster: string, was: Resources, mid: Resources, r: CloudResource, listing: seq<RouteTable>, tables: seq<RouteTable>, id: CloudId)
    requires Making(cluster, was, mid, listing, tables) && id !in TableIds(tables)
    requires TableRecord(r, cluster) && r.refId == id && !Has(mid, InZone(ROUTE_TABLE, r.tags.zone.value))
    requires exists z :: z in OfType(was, AVAILABILITY_ZONES) && z.refId == r.tags.zone.value
    ensures Making(cluster, was, mid + [r], listing, tables + [RouteTable(id, [], [])])
  {
    NewTable(tables, id);
    AddKeepsOthers(mid, r);
    assert was + mid[|was|..] == mid;
    if Has(was, InZone(ROUTE_TABLE, r.tags.zone.value)) {
      FindAppend(was, mid[|was|..], InZone(ROUTE_TABLE, r.tags.zone.value));
    }
    if Orderly(was) {
      AddKeepsOrderly(mid, r);
    }
  }

  /** One zone's turn: a new table is recorded before it is known to be available. */
  method MakeTable(reg: CloudRegistry, cloud: AliCloud, vpcId: string, zone: string, ghost was: Resources, ghost listing: seq<RouteTable>)
    returns (ok: bool)
    requires Making(reg.clusterName, was, reg.resources, listing, cloud.world.tables)
    requires exists z :: z in OfType(was, AVAILABILITY_ZONES) && z.refId == zone
    modifies reg`resources, cloud
    ensures Making(reg.clusterName, was, reg.resources, listing, cloud.world.tables) && old(reg.resources) <= reg.resources
    ensures cloud.world == old(cloud.world).(tables := cloud.world.tables)
    ensures ok ==> Has(reg.resources, InZone(ROUTE_TABLE, zone))
    ensures !cloud.faulty ==> ok
    ensures ok && !Has(old(reg.resources), InZone(ROUTE_TABLE, zone)) ==> cloud.calls == old(cloud.calls) + [CreateRouteTable(vpcId)]
    ensures Has(old(reg.resources), InZone(ROUTE_TABLE, zone)) ==>
              ok && reg.resources == old(reg.resources) && cloud.world == old(cloud.world) && cloud.calls == old(cloud.calls)
  {
    if Has(reg.resources, InZone(ROUTE_TABLE, zone)) {
      return true;
    }
    ghost var mid, tables := reg.resources, cloud.world.tables;
    var id := cloud.CreateTable(vpcId);
    if id.None? {
      return false;
    }
    var name := TableName(reg.clusterName, zone);
    var r := CloudResource("", name, id.value, "", ROUTE_TABLE, Tags(Some(name), Some(PRIVATE), Some(zone)), "");
    ghost var key := AliSubnets.Record(reg, r);
    MakingStep(reg.clusterName, was, mid, r.(id := key), listing, tables, id.value);
    NewIsFound(mid, r.(id := key), InZone(ROUTE_TABLE, zone));
    ok := cloud.Reachable();  // until it is available
  }

  method MakeTables(reg: CloudRegistry, cloud: AliCloud, vpcId: string) returns (ok: bool)
    requires AllListed(reg.resources, ROUTE_TABLE, TableIds(cloud.world.tables))
    modifies reg`resources, cloud
    ensures Making(reg.clusterName, old(reg.resources), reg.resources, old(cloud.world.tables), cloud.world.tables)
    ensures cloud.world == old(cloud.world).(tables := cloud.world.tables)
    ensures ok ==> TablesThere(reg.resources, cloud.world.tables)
    ensures !cloud.faulty ==> ok
    ensures TablesThere(old(reg.resources), old(cloud.world.tables)) ==>
              ok && reg.resources == old(reg.resources) && cloud.world == old(cloud.world) && cloud.calls == old(cloud.calls)
  {
    ghost var was, listing := reg.resources, cloud.world.tables;
    var zones := OfType(reg.resources, AVAILABILITY_ZONES);
    ghost var nothingToDo := AliEips.ZonesServed(was, zones, ROUTE_TABLE);
    for i := 0 to |zones|
      invariant zones == OfType(reg.resources, AVAILABILITY_ZONES)
      invariant Making(reg.clusterName, was, reg.resources, listing, cloud.world.tables)
      invariant cloud.world == old(cloud.world).(tables := cloud.world.tables)
      invariant AliEips.ZonesServed(reg.resources, zones[..i], ROUTE_TABLE)
      invariant nothingToDo ==> reg.resources == was && cloud.world == old(cloud.world) && cloud.calls == old(cloud.calls)
    {
      ghost var mid := reg.resources;
      assert zones[i] in OfType(was, AVAILABILITY_ZONES);
      ok := MakeTable(reg, cloud, vpcId, zones[i].refId, was, listing);
      if !ok {
        return;
      }
      AliEips.ServedStays(mid, reg.resources, zones, i, ROUTE_TABLE);
    }
    assert zones[..|zones|] == zones;
    ok := true;
  }

  // ---------- binding ----------

  /** Up to i every private table is bound; later ones are if the listing said so. */
  ghost predicate Binding(rs: Resources, listing: seq<RouteTable>, tables: seq<RouteTable>, i: nat) {
    forall j :: 0 <= j < |rs| && IsPrivateTable(rs[j]) && (j < i || Bound(rs[j], rs, listing)) ==> Bound(rs[j], rs, tables)
  }

  lemma {:induction false} BindStep(rs: Resources, listing: seq<RouteTable>, tables: seq<RouteTable>, i: nat)
    requires Binding(rs, listing, tables, i) && Orderly(rs) && i < |rs| && IsPrivateTable(rs[i]) && SubnetFor(rs[i], rs).Some?
    requires AllListed(rs, ROUTE_TABLE, TableIds(tables))
    ensures Binding(rs, listing, Bind(tables, rs[i].refId, SubnetFor(rs[i], rs).value.refId), i + 1)
  {
    var subnet := SubnetFor(rs[i], rs).value.refId;
    var out := Bind(tables, rs[i].refId, subnet);
    forall j | 0 <= j < |rs| && IsPrivateTable(rs[j]) && (j < i + 1 || Bound(rs[j], rs, listing)) ensures Bound(rs[j], rs, out) {
      assert rs[j] in rs;
      BindIs(tables, rs[i].refId, subnet, rs[j].refId);
      if j != i {
        SubnetsDiffer(rs, i, j);
      }
    }
  }

  /** The listing taken before the tables were made decides which bindings are asked for. */
  method BindTables(reg: CloudRegistry, cloud: AliCloud, listing: seq<RouteTable>) returns (ok: bool)
    requires AllListed(reg.resources, ROUTE_TABLE, TableIds(cloud.world.tables))
    requires forall id :: BoundTo(cloud.world.tables, id) == BoundTo(listing, id)
    modifies cloud
    ensures cloud.world == old(cloud.world).(tables := cloud.world.tables)
    ensures TableIds(cloud.world.tables) == TableIds(old(cloud.world.tables))
    ensures ok && Orderly(reg.resources) ==> AllBound(reg.resources, cloud.world.tables)
    ensures ok ==> SubnetsFor(reg.resources, |reg.resources|)
    ensures !cloud.faulty ==> (ok <==> SubnetsFor(reg.resources, |reg.resources|))
    ensures AllBound(reg.resources, listing) ==> ok && cloud.world == old(cloud.world) && cloud.calls == old(cloud.calls)
  {
    var rs := reg.resources;
    for i := 0 to |rs|
      invariant cloud.world == old(cloud.world).(tables := cloud.world.tables)
      invariant TableIds(cloud.world.tables) == TableIds(old(cloud.world.tables))
      invariant Orderly(rs) ==> Binding(rs, listing, cloud.world.tables, i)
      invariant SubnetsFor(rs, i)
      invariant AllBound(rs, listing) ==> cloud.world == old(cloud.world) && cloud.calls == old(cloud.calls)
    {
      if IsPrivateTable(rs[i]) {
        var subnet := SubnetFor(rs[i], rs);
        if subnet.None? {
          return false;  // the source dereferences nil here
        }
        if subnet.value.refId !in BoundTo(listing, rs[i].refId) {
          if Orderly(rs) {
            BindStep(rs, listing, cloud.world.tables, i);
          }
          ok := cloud.AssociateTable(rs[i].refId, subnet.value.refId);
          if !ok {
            return;
          }
        }
      }
    }
    ok := true;
  }

  // ---------- routing ----------

  /** Only the association and value of private tables changed, the association to their zone's gateway. */
  ghost predicate SameTables(was: Resources, now: Resources) {
    && |now| == |was|
    && OthersKept(was, now, ROUTE_TABLE)
    && (forall j :: 0 <= j < |was| ==> now[j] == was[j].(associatedId := now[j].associatedId, value := now[j].value))
    && (forall j :: 0 <= j < |was| && now[j] != was[j] ==>
                      IsPrivateTable(was[j]) && NatFor(was[j], was).Some? && now[j].associatedId == NatFor(was[j], was).value.refId)
  }

  lemma {:induction false} SameTablesSearch(was: Resources, now: Resources)
    requires SameTables(was, now)
    ensures forall q: Query :: FindIndex(now, q) == FindIndex(was, q)
    ensures forall r: CloudResource :: SubnetFor(r, now) == SubnetFor(r, was) && NatFor(r, now) == NatFor(r, was)
    ensures forall listed: set<string> :: AllListed(was, ROUTE_TABLE, listed) ==> AllListed(now, ROUTE_TABLE, listed)
  {
    forall q: Query ensures FindIndex(now, q) == FindIndex(was, q) {
      var i := FindIndex(was, q);
      if i < |was| {
        FindIndexIs(now, q, i);
      } else {
        assert forall j :: 0 <= j < |now| ==> !Matches(now[j], q);
      }
    }
    forall r: CloudResource ensures SubnetFor(r, now) == SubnetFor(r, was) && NatFor(r, now) == NatFor(r, was) {
      FindKept(was, now, PrivateInZone(SUBNET, ZoneOf(r)));
      FindKept(was, now, InZone(NAT_GATEWAY, ZoneOf(r)));
    }
    forall listed: set<string> | AllListed(was, ROUTE_TABLE, listed) ensures AllListed(now, ROUTE_TABLE, listed) {
      forall r | r in now && r.kind == ROUTE_TABLE ensures r.refId in listed {
        var j :| 0 <= j < |now| && now[j] == r;
        assert was[j] in was;
      }
    }
  }

  lemma {:induction false} SameTablesAt(was: Resources, now: Resources, i: nat)
    requires SameTables(was, now) && i < |was|
    ensures now[i].kind == was[i].kind && now[i].refId == was[i].refId
    ensures NatFor(now[i], now) == NatFor(was[i], was)
  {
    FindKept(was, now, InZone(NAT_GATEWAY, ZoneOf(was[i])));
  }

  lemma {:induction false} SameTablesStep(was: Resources, mid: Resources, i: nat, associatedId: string, value: string)
    requires SameTables(was, mid) && i < |mid| && mid[i].kind == ROUTE_TABLE
    requires IsPrivateTable(was[i]) && NatFor(was[i], was).Some? && associatedId == NatFor(was[i], was).value.refId
    ensures SameTables(was, mid[i := mid[i].(associatedId := associatedId, value := value)])
  {
    UpdateKeepsOthers(mid, i, mid[i].(associatedId := associatedId, value := value));
  }

  /** Up to i every private table is routed; bindings are as they were. */
  ghost predicate Routing(rs: Resources, before: seq<RouteTable>, tables: seq<RouteTable>, i: nat) {
    && TableIds(tables) == TableIds(before)
    && (forall id :: id in TableIds(before) ==> BoundTo(tables, id) == BoundTo(before, id))
    && (forall j :: 0 <= j < |rs| && IsPrivateTable(rs[j]) && j < i ==> Routes(rs[j], rs, tables))
  }

  lemma {:induction false} AddHopKeepsBindings(tables: seq<RouteTable>, id: string, natId: string)
    ensures forall x :: x in TableIds(tables) ==> BoundTo(AddHop(tables, id, natId), x) == BoundTo(tables, x)
  {
    forall x | x in TableIds(tables) ensures BoundTo(AddHop(tables, id, natId), x) == BoundTo(tables, x) {
      AddHopIs(tables, id, natId, x);
    }
  }

  lemma {:induction false} RouteStep(rs: Resources, before: seq<RouteTable>, tables: seq<RouteTable>, i: nat)
    requires Routing(rs, before, tables, i) && i < |rs| && IsPrivateTable(rs[i]) && NatFor(rs[i], rs).Some?
    requires AllListed(rs, ROUTE_TABLE, TableIds(before))
    ensures Routing(rs, before, AddHop(tables, rs[i].refId, NatFor(rs[i], rs).value.refId), i + 1)
  {
    var natId := NatFor(rs[i], rs).value.refId;
    var out := AddHop(tables, rs[i].refId, natId);
    AddHopKeepsBindings(tables, rs[i].refId, natId);
    forall j | 0 <= j < |rs| && IsPrivateTable(rs[j]) && j < i + 1 ensures Routes(rs[j], rs, out) {
      assert rs[j] in rs;
      StillRoutes(rs, tables, rs[i], rs[j]);
    }
  }

  /** A route added to one table takes no other route away. */
  lemma {:induction false} StillRoutes(rs: Resources, tables: seq<RouteTable>, r: CloudResource, other: CloudResource)
    requires NatFor(r, rs).Some? && other.refId in TableIds(tables) && (other == r || Routes(other, rs, tables))
    ensures Routes(other, rs, AddHop(tables, r.refId, NatFor(r, rs).value.refId))
  {
    AddHopIs(tables, r.refId, NatFor(r, rs).value.refId, other.refId);
  }

  lemma {:induction false} RoutedAlready(rs: Resources, before: seq<RouteTable>, tables: seq<RouteTable>, i: nat)
    requires Routing(rs, before, tables, i) && i < |rs| && Routes(rs[i], rs, tables)
    ensures Routing(rs, before, tables, i + 1)
  {
  }

  /** One table's turn: a default route to the zone's gateway, unless some custom route leads there. */
  method RouteTableTurn(reg: CloudRegistry, cloud: AliCloud, i: nat, ghost was: Resources, ghost before: seq<RouteTable>) returns (ok: bool)
    requires SameTables(was, reg.resources) && i < |was| && IsPrivateTable(was[i])
    requires Routing(was, before, cloud.world.tables, i) && AllListed(was, ROUTE_TABLE, TableIds(before))
    modifies reg`resources, cloud
    ensures SameTables(was, reg.resources)
    ensures Routing(was, before, cloud.world.tables, if ok then i + 1 else i)
    ensures cloud.world == old(cloud.world).(tables := cloud.world.tables)
    ensures ok ==> NatFor(was[i], was).Some?
    ensures !cloud.faulty ==> (ok <==> NatFor(was[i], was).Some?)
    ensures old(reg.resources) == was && Routes(was[i], was, old(cloud.world.tables)) ==>
              reg.resources == old(reg.resources) && cloud.world == old(cloud.world) && cloud.calls == old(cloud.calls)
  {
    SameTablesAt(was, reg.resources, i);
    ok := cloud.Reachable();
    if !ok {
      return;
    }
    var r := reg.resources[i];
    var gateway := NatFor(r, reg.resources);
    if gateway.None? {
      return false;
    }
    if gateway.value.refId in HopsOf(cloud.world.tables, r.refId) {
      RoutedAlready(was, before, cloud.world.tables, i);
      return true;
    }
    RouteStep(was, before, cloud.world.tables, i);
    var entry := cloud.CreateRoute(r.refId, gateway.value.refId);
    if entry.None? {
      return false;
    }
    SameTablesStep(was, reg.resources, i, gateway.value.refId, entry.value);
    reg.resources := reg.resources[i := r.(associatedId := gateway.value.refId, value := entry.value)];
  }

  method RouteTables(reg: CloudRegistry, cloud: AliCloud) returns (ok: bool)
    requires AllListed(reg.resources, ROUTE_TABLE, TableIds(cloud.world.tables))
    modifies reg`resources, cloud
    ensures SameTables(old(reg.resources), reg.resources)
    ensures cloud.world == old(cloud.world).(tables := cloud.world.tables)
    ensures Routing(old(reg.resources), old(cloud.world.tables), cloud.world.tables, if ok then |reg.resources| else 0)
    ensures ok ==> GatewaysFor(old(reg.resources), |old(reg.resources)|)
    ensures !cloud.faulty ==> (ok <==> GatewaysFor(old(reg.resources), |old(reg.resources)|))
    ensures AllRouted(old(reg.resources), old(cloud.world.tables)) ==>
              reg.resources == old(reg.resources) && cloud.world == old(cloud.world) && cloud.calls == old(cloud.calls)
  {
    ghost var was, before := reg.resources, cloud.world.tables;
    for i := 0 to |reg.resources|
      invariant SameTables(was, reg.resources) && i <= |was|
      invariant Routing(was, before, cloud.world.tables, i)
      invariant i <= |was| && GatewaysFor(was, i)
      invariant cloud.world == old(cloud.world).(tables := cloud.world.tables)
      invariant AllRouted(was, before) ==> reg.resources == was && cloud.world == old(cloud.world) && cloud.calls == old(cloud.calls)
    {
      if IsPrivateTable(reg.resources[i]) {
        ok := RouteTableTurn(reg, cloud, i, was, before);
        if !ok {
          return;
        }
      }
    }
    ok := true;
  }

  lemma {:induction false} RoutedIsSettled(was: Resources, now: Resources, before: seq<RouteTable>, tables: seq<RouteTable>)
    requires SameTables(was, now) && Routing(was, before, tables, |was|)
    requires TablesThere(was, before) && AllBound(was, before)
    ensures TablesThere(now, tables) && AllBound(now, tables) && AllRouted(now, tables)
  {
    SameTablesSearch(was, now);
    var zones := OfType(was, AVAILABILITY_ZONES);
    assert OfType(now, AVAILABILITY_ZONES) == zones;
    forall i | 0 <= i < |zones| ensures Has(now, InZone(ROUTE_TABLE, zones[i].refId)) {
      assert Has(was, InZone(ROUTE_TABLE, zones[i].refId));
    }
    forall i | 0 <= i < |now| && IsPrivateTable(now[i]) ensures Bound(now[i], now, tables) && Routes(now[i], now, tables) {
      assert was[i] in was && IsPrivateTable(was[i]);
      assert Bound(was[i], was, before) && Routes(was[i], was, tables);
    }
  }

  // ---------- the whole run ----------

  method CreateRouteTables(reg: CloudRegistry, cloud: AliCloud) returns (ok: bool)
    modifies reg`resources, cloud
    ensures OthersKept(old(reg.resources), reg.resources, ROUTE_TABLE)
    ensures cloud.world == old(cloud.world).(tables := cloud.world.tables)
    ensures ok && Orderly(old(reg.resources)) ==> RoutesSettled(reg.resources, cloud.world)
    ensures Orderly(old(reg.resources)) ==> Orderly(reg.resources)
    ensures NewTablesPrivate(old(reg.resources), reg.resources)
    // Without faults it succeeds exactly if every table, also one to be made, has a subnet and a gateway.
    ensures !cloud.faulty ==>
              (ok <==> && Find(old(reg.resources), OfKind(VPC)).Some?
                       && AllLinkable(Pruned(old(reg.resources), ROUTE_TABLE, TableIds(old(cloud.world.tables)))))
    ensures !cloud.faulty && RoutesSettled(old(reg.resources), old(cloud.world)) ==> ok
    ensures RoutesSettled(old(reg.resources), old(cloud.world)) ==>
              reg.resources == old(reg.resources) && cloud.world == old(cloud.world) && cloud.calls == old(cloud.calls)
  {
    ghost var was := reg.resources;
    var vpc := Find(reg.resources, OfKind(VPC));
    if vpc.None? {
      return false;
    }
    ok := cloud.Reachable();
    if !ok {
      return;
    }
    PrunedOrderly(was, TableIds(cloud.world.tables));
    reg.Prune(ROUTE_TABLE, TableIds(cloud.world.tables));
    if RoutesSettled(was, cloud.world) {
      SettledIsLinkable(was, cloud.world);
    }
    ghost var pruned := reg.resources;
    ok := MakeAndLink(reg, cloud, vpc.value.refId);
    KnownBefore(was, pruned, reg.resources);
    FindKept(was, reg.resources, OfKind(VPC));
  }

  /** What follows the pruning. */
  method MakeAndLink(reg: CloudRegistry, cloud: AliCloud, vpcId: string) returns (ok: bool)
    requires AllListed(reg.resources, ROUTE_TABLE, TableIds(cloud.world.tables))
    modifies reg`resources, cloud
    ensures OthersKept(old(reg.resources), reg.resources, ROUTE_TABLE)
    ensures cloud.world == old(cloud.world).(tables := cloud.world.tables)
    ensures ok && Orderly(old(reg.resources)) ==>
              TablesThere(reg.resources, cloud.world.tables) && AllBound(reg.resources, cloud.world.tables) && AllRouted(reg.resources, cloud.world.tables)
    ensures Orderly(old(reg.resources)) ==> Orderly(reg.resources)
    ensures NewTablesPrivate(old(reg.resources), reg.resources)
    ensures !cloud.faulty ==> (ok <==> AllLinkable(old(reg.resources)))
    ensures TablesThere(old(reg.resources), old(cloud.world.tables)) && AllBound(old(reg.resources), old(cloud.world.tables))
            && AllRouted(old(reg.resources), old(cloud.world.tables)) ==>
              reg.resources == old(reg.resources) && cloud.world == old(cloud.world) && cloud.calls == old(cloud.calls)
  {
    ghost var pruned := reg.resources;
    var listing := cloud.world.tables;
    ok := MakeTables(reg, cloud, vpcId);
    TablesStayPrivate(pruned, reg.resources, reg.resources);
    if !ok {
      return;
    }
    LinkableMade(reg.clusterName, pruned, reg.resources, listing, cloud.world.tables);
    ghost var made := reg.resources;
    ok := LinkTables(reg, cloud, listing);
    TablesStayPrivate(pruned, made, reg.resources);
  }

  lemma {:induction false} KnownBefore(was: Resources, pruned: Resources, now: Resources)
    requires (forall r :: r in pruned ==> r in was) && OthersKept(was, pruned, ROUTE_TABLE) && NewTablesPrivate(pruned, now)
    ensures NewTablesPrivate(was, now)
  {
    forall r | r in now && r.kind == ROUTE_TABLE ensures KnownTable(r, was) || TableOfZone(r, was) {
      if KnownTable(r, pruned) {
        var o :| o in pruned && o.kind == ROUTE_TABLE && o.refId == r.refId && o.tags == r.tags;
        assert o in was;
      }
    }
  }

  /** The last two loops. */
  method LinkTables(reg: CloudRegistry, cloud: AliCloud, listing: seq<RouteTable>) returns (ok: bool)
    requires TablesThere(reg.resources, cloud.world.tables)
    requires forall id :: BoundTo(cloud.world.tables, id) == BoundTo(listing, id)
    modifies reg`resources, cloud
    ensures SameTables(old(reg.resources), reg.resources)
    ensures cloud.world == old(cloud.world).(tables := cloud.world.tables)
    ensures Orderly(old(reg.resources)) ==> Orderly(reg.resources)
    ensures ok && Orderly(old(reg.resources)) ==>
              TablesThere(reg.resources, cloud.world.tables) && AllBound(reg.resources, cloud.world.tables) && AllRouted(reg.resources, cloud.world.tables)
    ensures ok ==> SubnetsFor(old(reg.resources), |old(reg.resources)|) && GatewaysFor(old(reg.resources), |old(reg.resources)|)
    ensures !cloud.faulty ==>
              (ok <==> SubnetsFor(old(reg.resources), |old(reg.resources)|) && GatewaysFor(old(reg.resources), |old(reg.resources)|))
    ensures AllBound(old(reg.resources), listing) && AllRouted(old(reg.resources), old(cloud.world.tables)) ==>
              reg.resources == old(reg.resources) && cloud.world == old(cloud.world) && cloud.calls == old(cloud.calls)
  {
    ok := BindTables(reg, cloud, listing);
    if !ok {
      return;
    }
    ghost var made, bound := reg.resources, cloud.world.tables;
    ok := RouteTables(reg, cloud);
    SameTablesOrderly(made, reg.resources);
    if ok && Orderly(made) {
      RoutedIsSettled(made, reg.resources, bound, cloud.world.tables);
    }
  }

  lemma {:induction false} SettledIsLinkable(rs: Resources, w: World)
    requires RoutesSettled(rs, w)
    ensures AllLinkable(rs)
  {
    forall r | r in rs && IsPrivateTable(r) ensures Linkable(rs, ZoneOf(r)) {
      var i :| 0 <= i < |rs| && rs[i] == r;
      assert Bound(rs[i], rs, w.tables) && Routes(rs[i], rs, w.tables);
    }
    var zones := OfType(rs, AVAILABILITY_ZONES);
    forall z | z in zones ensures Has(rs, InZone(ROUTE_TABLE, z.refId)) {
      var i :| 0 <= i < |zones| && zones[i] == z;
    }
  }

  /** After the tables are made, all can be bound and routed exactly if that could be told before. */
  lemma {:induction false} LinkableMade(cluster: string, pruned: Resources, made: Resources, listing: seq<RouteTable>, tables: seq<RouteTable>)
    requires Making(cluster, pruned, made, listing, tables) && AliEips.ZonesServed(made, OfType(made, AVAILABILITY_ZONES), ROUTE_TABLE)
    ensures AllLinkable(pruned)
            <==> SubnetsFor(made, |made|) && GatewaysFor(made, |made|)
  {
    if AllLinkable(pruned) {
      forall j | 0 <= j < |made| && IsPrivateTable(made[j]) ensures SubnetFor(made[j], made).Some? && NatFor(made[j], made).Some? {
        TableIsLinkable(cluster, pruned, made, listing, tables, made[j]);
      }
    } else if z :| z in OfType(pruned, AVAILABILITY_ZONES) && !Has(pruned, InZone(ROUTE_TABLE, z.refId)) && !Linkable(pruned, z.refId) {
      var t := MadeTable(cluster, pruned, made, listing, tables, z);
      NotLinkable(pruned, made, t);
    } else {
      var r :| r in pruned && IsPrivateTable(r) && !Linkable(pruned, ZoneOf(r));
      assert pruned <= made;
      NotLinkable(pruned, made, r);
    }
  }

  lemma {:induction false} TableIsLinkable(cluster: string, pruned: Resources, made: Resources, listing: seq<RouteTable>, tables: seq<RouteTable>, r: CloudResource)
    requires Making(cluster, pruned, made, listing, tables) && AllLinkable(pruned) && r in made && IsPrivateTable(r)
    ensures SubnetFor(r, made).Some? && NatFor(r, made).Some?
  {
    LinkableKept(pruned, made, ZoneOf(r));
    if r !in pruned {
      var z :| z in OfType(pruned, AVAILABILITY_ZONES) && z.refId == r.tags.zone.value;
    }
  }

  lemma {:induction false} NotLinkable(pruned: Resources, made: Resources, r: CloudResource)
    requires OthersKept(pruned, made, ROUTE_TABLE) && r in made && IsPrivateTable(r) && !Linkable(pruned, ZoneOf(r))
    ensures !(SubnetsFor(made, |made|) && GatewaysFor(made, |made|))
  {
    LinkableKept(pruned, made, ZoneOf(r));
    var j :| 0 <= j < |made| && made[j] == r;
  }

  /** A zone without a table got a private one. */
  lemma {:induction false} MadeTable(cluster: string, pruned: Resources, made: Resources, listing: seq<RouteTable>, tables: seq<RouteTable>, z: CloudResource) returns (t: CloudResource)
    requires Making(cluster, pruned, made, listing, tables) && AliEips.ZonesServed(made, OfType(made, AVAILABILITY_ZONES), ROUTE_TABLE)
    requires z in OfType(pruned, AVAILABILITY_ZONES) && !Has(pruned, InZone(ROUTE_TABLE, z.refId))
    ensures t in made && IsPrivateTable(t) && ZoneOf(t) == z.refId
  {
    var zones := OfType(made, AVAILABILITY_ZONES);
    var i :| 0 <= i < |zones| && zones[i] == z;
    var q := InZone(ROUTE_TABLE, zones[i].refId);
    t := made[FindIndex(made, q)];
    HasIff(pruned, q);
  }

  /** A recorded table was recorded with these tags before, or is a private one of some zone. */
  ghost predicate NewTablesPrivate(was: Resources, now: Resources) {
    forall r :: r in now && r.kind == ROUTE_TABLE ==> KnownTable(r, was) || TableOfZone(r, was)
  }

  /** A private table of an availability zone. */
  predicate TableOfZone(r: CloudResource, rs: Resources) {
    IsPrivateTable(r) && r.tags.zone.Some? && exists z :: z in OfType(rs, AVAILABILITY_ZONES) && z.refId == r.tags.zone.value
  }

  predicate KnownTable(r: CloudResource, was: Resources) {
    exists o :: o in was && o.kind == ROUTE_TABLE && o.refId == r.refId && o.tags == r.tags
  }

  lemma {:induction false} TablesStayPrivate(was: Resources, made: Resources, now: Resources)
    requires forall r :: r in made ==> r in was || TableOfZone(r, was)
    requires SameTables(made, now)
    ensures NewTablesPrivate(was, now)
  {
    forall r | r in now && r.kind == ROUTE_TABLE ensures KnownTable(r, was) || TableOfZone(r, was) {
      var j :| 0 <= j < |now| && now[j] == r;
      assert made[j] in made;
    }
  }

  lemma {:induction false} SameTablesOrderly(was: Resources, now: Resources)
    requires SameTables(was, now)
    ensures Orderly(was) ==> Orderly(now)
  {
  }

  lemma {:induction false} PrunedOrderly(rs: Resources, listed: set<string>)
    ensures var out := Pruned(rs, ROUTE_TABLE, listed);
            && OthersKept(rs, out, ROUTE_TABLE)
            && AllListed(out, ROUTE_TABLE, listed)
            && (AllListed(rs, ROUTE_TABLE, listed) ==> out == rs)
            && (forall r :: r in out ==> r in rs)
            && (Orderly(rs) ==> Orderly(out))
  {
    PrunedIsLive(rs, ROUTE_TABLE, listed);
    if Orderly(rs) {
      var gone := Stale(rs, ROUTE_TABLE, listed, Refs(rs, ROUTE_TABLE));
      RemoveKeepsDistinct(rs, gone, SUBNET);
      AliEips.DistinctZonesAfterRemove(rs, gone, ROUTE_TABLE);
    }
  }
}
