/** The cloud an Ali network is provisioned in: what its listings show, and the calls that change it. */
module AliClouds {
  import opened Wrappers
  import opened Cidr
  import opened Text

  type CloudId = id: string | id != "" witness "i"

  datatype VpcInfo = VpcInfo(id: CloudId, cidrBlock: string)

  /** Fields a response may lack are options. */
  datatype VSwitch = VSwitch(id: Option<CloudId>, vpcId: string, cidr: Option<CidrText>, zone: Option<string>)

  datatype Eip = Eip(id: CloudId, instance: string, ip: string)

  datatype Nat = Nat(id: CloudId, vpcId: string, vswitch: Option<string>, ips: seq<string>)

  /** hops holds the next hops of the custom route entries. */
  datatype RouteTable = RouteTable(id: CloudId, vswitches: seq<string>, hops: seq<string>)

  /** Each list in the order of its listing. */
  datatype World = World(vpcs: seq<VpcInfo>, vswitches: seq<VSwitch>, eips: seq<Eip>, nats: seq<Nat>, tables: seq<RouteTable>)

  /** A call that asks for a change, whether it succeeds or not. */
  datatype Call =
    | CreateVpc(cidrBlock: string)
    | CreateVSwitch(vpcId: string, name: string, cidr: Network, zone: string)
    | AllocateEipAddress
    | CreateNatGateway(vpcId: string, vswitchId: string)
    | AssociateEipAddress(eip: string, natId: string)
    | CreateSnatEntry(vswitchId: string, ip: string)
    | CreateRouteTable(vpcId: string)
    | AssociateRouteTable(table: string, vswitchId: string)
    | CreateRouteEntry(table: string, natId: string)
    | TagResources(id: string)

  // ---------- listings ----------

  function SwitchId(v: VSwitch): string {
    match v.id
    case Some(id) => id
    case None => ""
  }

  function SwitchesOf(w: World, vpcId: string): seq<VSwitch> { InVpc(w.vswitches, vpcId) }

  function InVpc(vs: seq<VSwitch>, vpcId: string): (out: seq<VSwitch>)
    ensures forall v :: v in out <==> v in vs && v.vpcId == vpcId
  {
    if vs == [] then []
    else (if vs[0].vpcId == vpcId then [vs[0]] else []) + InVpc(vs[1..], vpcId)
  }

  lemma {:induction false} InVpcConcat(a: seq<VSwitch>, b: seq<VSwitch>, vpcId: string)
    ensures InVpc(a + b, vpcId) == InVpc(a, vpcId) + InVpc(b, vpcId)
  {
    if a == [] {
      assert a + b == b;
    } else {
      assert (a + b)[1..] == a[1..] + b;
      InVpcConcat(a[1..], b, vpcId);
    }
  }

  function SwitchIds(vs: seq<VSwitch>): set<string> { set v | v in vs :: SwitchId(v) }

  function EipIds(eips: seq<Eip>): set<string> { set e | e in eips :: e.id }

  function NatsIn(nats: seq<Nat>, vpcId: string): (out: seq<Nat>)
    ensures forall n :: n in out <==> n in nats && n.vpcId == vpcId
  {
    if nats == [] then []
    else (if nats[0].vpcId == vpcId then [nats[0]] else []) + NatsIn(nats[1..], vpcId)
  }

  function NatIds(nats: seq<Nat>): set<string> { set n | n in nats :: n.id }

  function TableIds(tables: seq<RouteTable>): set<string> { set t | t in tables :: t.id }

  /** The last listed table with the id: the search loop does not stop at the first. */
  function TableById(tables: seq<RouteTable>, id: string): (r: Option<RouteTable>)
    ensures r.Some? ==> r.value in tables && r.value.id == id
    ensures r.Some? <==> id in TableIds(tables)
  {
    if tables == [] then None
    else if tables[|tables| - 1].id == id then Some(tables[|tables| - 1])
    else
      assert forall t :: t in tables <==> t in tables[..|tables| - 1] || t == tables[|tables| - 1];
      TableById(tables[..|tables| - 1], id)
  }

  function BoundTo(tables: seq<RouteTable>, id: string): seq<string> {
    match TableById(tables, id)
    case Some(t) => t.vswitches
    case None => []
  }

  function HopsOf(tables: seq<RouteTable>, id: string): seq<string> {
    match TableById(tables, id)
    case Some(t) => t.hops
    case None => []
  }

  // ---------- changes ----------

  function Without(vs: seq<string>, v: string): (out: seq<string>)
    ensures forall x :: x in out <==> x in vs && x != v
  {
    if vs == [] then []
    else (if vs[0] == v then [] else [vs[0]]) + Without(vs[1..], v)
  }

  /** A switch is bound to one table at a time: binding it takes it from the table it was bound to. */
  function Bind(tables: seq<RouteTable>, id: string, vswitch: string): (out: seq<RouteTable>)
    ensures TableIds(out) == TableIds(tables)
  {
    var out := seq(|tables|, i requires 0 <= i < |tables| => Rebound(tables[i], id, vswitch));
    SameTableIds(tables, out);
    out
  }

  function Rebound(t: RouteTable, id: string, vswitch: string): RouteTable {
    t.(vswitches := Without(t.vswitches, vswitch) + if t.id == id then [vswitch] else [])
  }

  function AddHop(tables: seq<RouteTable>, id: string, natId: string): (out: seq<RouteTable>)
    ensures TableIds(out) == TableIds(tables)
  {
    var out := seq(|tables|, i requires 0 <= i < |tables| => Routed(tables[i], id, natId));
    SameTableIds(tables, out);
    out
  }

  function Routed(t: RouteTable, id: string, natId: string): RouteTable {
    if t.id == id then t.(hops := t.hops + [natId]) else t
  }

  lemma {:induction false} SameTableIds(a: seq<RouteTable>, b: seq<RouteTable>)
    requires |a| == |b| && forall i :: 0 <= i < |a| ==> a[i].id == b[i].id
    ensures TableIds(a) == TableIds(b)
  {
  }

  /** Where the tables of two lists agree in their ids, so does the search. */
  lemma {:induction false} TableByIdMapped(a: seq<RouteTable>, b: seq<RouteTable>, id: string) returns (i: nat)
    requires |a| == |b| && (forall i :: 0 <= i < |a| ==> a[i].id == b[i].id) && id in TableIds(a)
    ensures i < |a| && TableById(a, id) == Some(a[i]) && TableById(b, id) == Some(b[i])
  {
    i := |a| - 1;
    if a[i].id != id {
      SameTableIds(a, b);
      assert id in TableIds(a[..i]) by {
        var t :| t in a && t.id == id;
        assert a == a[..i] + [a[i]];
        assert t in a[..i];
      }
      i := TableByIdMapped(a[..i], b[..i], id);
    }
  }

  lemma {:induction false} BindIs(tables: seq<RouteTable>, id: string, vswitch: string, other: string)
    requires other in TableIds(tables)
    ensures var out := Bind(tables, id, vswitch);
            && BoundTo(out, other) == Without(BoundTo(tables, other), vswitch) + (if other == id then [vswitch] else [])
            && HopsOf(out, other) == HopsOf(tables, other)
  {
    var i := TableByIdMapped(tables, Bind(tables, id, vswitch), other);
  }

  lemma {:induction false} AddHopIs(tables: seq<RouteTable>, id: string, natId: string, other: string)
    requires other in TableIds(tables)
    ensures var out := AddHop(tables, id, natId);
            && BoundTo(out, other) == BoundTo(tables, other)
            && HopsOf(out, other) == HopsOf(tables, other) + (if other == id then [natId] else [])
  {
    var i := TableByIdMapped(tables, AddHop(tables, id, natId), other);
  }

  function Occupied(eips: seq<Eip>, id: string, instance: string): seq<Eip> {
    seq(|eips|, i requires 0 <= i < |eips| => if eips[i].id == id then eips[i].(instance := instance) else eips[i])
  }

  lemma {:induction false} OccupiedIds(eips: seq<Eip>, id: string, instance: string)
    ensures EipIds(Occupied(eips, id, instance)) == EipIds(eips)
  {
    var out := Occupied(eips, id, instance);
    forall x | x in EipIds(eips) ensures x in EipIds(out) {
      var i :| 0 <= i < |eips| && eips[i].id == x;
      assert out[i] in out;
    }
    forall x | x in EipIds(out) ensures x in EipIds(eips) {
      var i :| 0 <= i < |out| && out[i].id == x;
      assert eips[i] in eips;
    }
  }

  function Equipped(nats: seq<Nat>, id: string, eip: string): seq<Nat> {
    seq(|nats|, i requires 0 <= i < |nats| => if nats[i].id == id then nats[i].(ips := nats[i].ips + [eip]) else nats[i])
  }

  lemma {:induction false} EquippedIds(nats: seq<Nat>, id: string, eip: string, vpcId: string)
    ensures NatIds(NatsIn(Equipped(nats, id, eip), vpcId)) == NatIds(NatsIn(nats, vpcId))
    ensures forall n :: n in Equipped(nats, id, eip) ==> n in nats || n.id == id
  {
    var out := Equipped(nats, id, eip);
    forall x | x in NatIds(NatsIn(nats, vpcId)) ensures x in NatIds(NatsIn(out, vpcId)) {
      var i :| 0 <= i < |nats| && nats[i].id == x && nats[i].vpcId == vpcId;
      assert out[i] in out && out[i] in NatsIn(out, vpcId);
    }
    forall x | x in NatIds(NatsIn(out, vpcId)) ensures x in NatIds(NatsIn(nats, vpcId)) {
      var i :| 0 <= i < |out| && out[i].id == x && out[i].vpcId == vpcId;
      assert nats[i] in nats && nats[i] in NatsIn(nats, vpcId);
    }
  }

  // ---------- the calls ----------

  /**
   With faulty set, any call may fail; a failed one changes nothing. A new resource gets an id
   that none of its kind has. calls remembers every attempt to change something.
   */
  class AliCloud {
    const faulty: bool
    var world: World
    var calls: seq<Call>

    constructor (faulty: bool, w: World)
      ensures this.faulty == faulty && world == w && calls == []
    {
      this.faulty, world, calls := faulty, w, [];
    }

    /** A describe call, its status, or a wait: the answer is the list as it is, or an error. */
    method Reachable() returns (ok: bool)
      ensures !faulty ==> ok
    {
      var fail: bool := *;
      ok := !(faulty && fail);
    }

    /** Ids are never given twice. */
    method NewId(taken: seq<string>) returns (id: CloudId)
      ensures id !in taken
    {
      var given: bool, any: string := *, *;
      id := if !given || any == "" || any in taken then Fresh(taken) else any;
    }

    method TagResource(id: string) returns (ok: bool)
      modifies this`calls
      ensures calls == old(calls) + [TagResources(id)]
      ensures !faulty ==> ok
    {
      calls := calls + [TagResources(id)];
      ok := Reachable();
    }

    method CreateVpcCall(cidrBlock: string) returns (id: Option<CloudId>)
      modifies this
      ensures calls == old(calls) + [CreateVpc(cidrBlock)]
      ensures id.None? ==> world == old(world)
      ensures id.Some? ==> world == old(world).(vpcs := old(world.vpcs) + [VpcInfo(id.value, cidrBlock)])
      ensures !faulty ==> id.Some?
    {
      calls := calls + [CreateVpc(cidrBlock)];
      var ok := Reachable();
      if !ok {
        return None;
      }
      var vpcs := world.vpcs;
      var newId := NewId(seq(|vpcs|, i requires 0 <= i < |vpcs| => vpcs[i].id));
      world := world.(vpcs := world.vpcs + [VpcInfo(newId, cidrBlock)]);
      id := Some(newId);
    }

    method CreateVSwitchCall(vpcId: string, name: string, cidr: Network, zone: string) returns (id: Option<CloudId>)
      modifies this
      ensures calls == old(calls) + [CreateVSwitch(vpcId, name, cidr, zone)]
      ensures id.None? ==> world == old(world)
      ensures id.Some? ==>
                && id.value !in SwitchIds(old(world.vswitches))
                && world == old(world).(vswitches := old(world.vswitches) + [VSwitch(id, vpcId, Some(Good(cidr)), Some(zone))])
      ensures !faulty ==> id.Some?
    {
      calls := calls + [CreateVSwitch(vpcId, name, cidr, zone)];
      var ok := Reachable();
      if !ok {
        return None;
      }
      var vs := world.vswitches;
      var newId := NewId(seq(|vs|, i requires 0 <= i < |vs| => SwitchId(vs[i])));
      NotAmong(vs, seq(|vs|, i requires 0 <= i < |vs| => SwitchId(vs[i])), SwitchId, newId);
      id := Some(newId);
      world := world.(vswitches := vs + [VSwitch(id, vpcId, Some(Good(cidr)), Some(zone))]);
    }

    method AllocateEip() returns (eip: Option<Eip>)
      modifies this
      ensures calls == old(calls) + [AllocateEipAddress]
      ensures eip.None? ==> world == old(world)
      ensures eip.Some? ==>
                && eip.value.id !in EipIds(old(world.eips)) && eip.value.instance == ""
                && world == old(world).(eips := old(world.eips) + [eip.value])
      ensures !faulty ==> eip.Some?
    {
      calls := calls + [AllocateEipAddress];
      var ok := Reachable();
      if !ok {
        return None;
      }
      var eips := world.eips;
      var newId := NewId(seq(|eips|, i requires 0 <= i < |eips| => eips[i].id));
      NotAmong(eips, seq(|eips|, i requires 0 <= i < |eips| => eips[i].id), (e: Eip) => e.id, newId);
      var ip: string := *;
      eip := Some(Eip(newId, "", ip));
      world := world.(eips := eips + [eip.value]);
    }

    method CreateNat(vpcId: string, vswitchId: string) returns (id: Option<CloudId>)
      modifies this
      ensures calls == old(calls) + [CreateNatGateway(vpcId, vswitchId)]
      ensures id.None? ==> world == old(world)
      ensures id.Some? ==> world == old(world).(nats := old(world.nats) + [Nat(id.value, vpcId, Some(vswitchId), [])])
      ensures !faulty ==> id.Some?
    {
      calls := calls + [CreateNatGateway(vpcId, vswitchId)];
      var ok := Reachable();
      if !ok {
        return None;
      }
      var nats := world.nats;
      var newId := NewId(seq(|nats|, i requires 0 <= i < |nats| => nats[i].id));
      world := world.(nats := nats + [Nat(newId, vpcId, Some(vswitchId), [])]);
      id := Some(newId);
    }

    method AssociateEip(eip: string, natId: string) returns (ok: bool)
      modifies this
      ensures calls == old(calls) + [AssociateEipAddress(eip, natId)]
      ensures !ok ==> world == old(world)
      ensures ok ==> world == old(world).(eips := Occupied(old(world.eips), eip, natId), nats := Equipped(old(world.nats), natId, eip))
      ensures !faulty ==> ok
    {
      calls := calls + [AssociateEipAddress(eip, natId)];
      ok := Reachable();
      if ok {
        world := world.(eips := Occupied(world.eips, eip, natId), nats := Equipped(world.nats, natId, eip));
      }
    }

    method CreateSnat(vswitchId: string, ip: string) returns (ok: bool)
      modifies this`calls
      ensures calls == old(calls) + [CreateSnatEntry(vswitchId, ip)]
      ensures !faulty ==> ok
    {
      calls := calls + [CreateSnatEntry(vswitchId, ip)];
      ok := Reachable();
    }

    method CreateTable(vpcId: string) returns (id: Option<CloudId>)
      modifies this
      ensures calls == old(calls) + [CreateRouteTable(vpcId)]
      ensures id.None? ==> world == old(world)
      ensures id.Some? ==>
                && id.value !in TableIds(old(world.tables))
                && world == old(world).(tables := old(world.tables) + [RouteTable(id.value, [], [])])
      ensures !faulty ==> id.Some?
    {
      calls := calls + [CreateRouteTable(vpcId)];
      var ok := Reachable();
      if !ok {
        return None;
      }
      var tables := world.tables;
      var newId := NewId(seq(|tables|, i requires 0 <= i < |tables| => tables[i].id));
      NotAmong(tables, seq(|tables|, i requires 0 <= i < |tables| => tables[i].id), (t: RouteTable) => t.id, newId);
      world := world.(tables := tables + [RouteTable(newId, [], [])]);
      id := Some(newId);
    }

    method AssociateTable(table: string, vswitchId: string) returns (ok: bool)
      modifies this
      ensures calls == old(calls) + [AssociateRouteTable(table, vswitchId)]
      ensures !ok ==> world == old(world)
      ensures ok ==> world == old(world).(tables := Bind(old(world.tables), table, vswitchId))
      ensures !faulty ==> ok
    {
      calls := calls + [AssociateRouteTable(table, vswitchId)];
      ok := Reachable();
      if ok {
        world := world.(tables := Bind(world.tables, table, vswitchId));
      }
    }

    method CreateRoute(table: string, natId: string) returns (entryId: Option<string>)
      modifies this
      ensures calls == old(calls) + [CreateRouteEntry(table, natId)]
      ensures entryId.None? ==> world == old(world)
      ensures entryId.Some? ==> world == old(world).(tables := AddHop(old(world.tables), table, natId))
      ensures !faulty ==> entryId.Some?
    {
      calls := calls + [CreateRouteEntry(table, natId)];
      var ok := Reachable();
      if !ok {
        return None;
      }
      var entry: string := *;
      world := world.(tables := AddHop(world.tables, table, natId));
      entryId := Some(entry);
    }
  }

  /** An id that is not among the listed ones belongs to none of the things listed. */
  lemma {:induction false} NotAmong<T>(things: seq<T>, ids: seq<string>, idOf: T -> string, id: string)
    requires |ids| == |things| && (forall i :: 0 <= i < |ids| ==> ids[i] == idOf(things[i])) && id !in ids
    ensures forall t :: t in things ==> idOf(t) != id
  {
    forall t | t in things ensures idOf(t) != id {
      var i :| 0 <= i < |things| && things[i] == t;
      assert ids[i] in ids;
    }
  }
}
