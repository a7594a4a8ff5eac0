/** A cluster with its nodes: statuses, levels, address ranges and the bare-metal node list. */
module Clusters {
  import opened Wrappers
  import opened Cidr
  import opened IpRange
  import opened Text

  datatype ClusterStatus = UNSPECIFIED | CREATING | STARTING | RUNNING | STOPPING | STOPPED | DELETED | ERROR

  datatype Level = NO_LEVEL | BASIC | STANDARD | ADVANCED

  datatype Provider = NO_PROVIDER | BARE_METAL | AWS | ALI_CLOUD {
    predicate IsCloud() { this != BARE_METAL }
  }

  datatype NodeStatus =
    | NODE_UNSPECIFIED | NODE_READY | NODE_FINDING | NODE_CREATING | NODE_PENDING | NODE_RUNNING
    | NODE_DELETING | NODE_DELETED | NODE_ERROR

  datatype Role = NO_ROLE | MASTER | WORKER | EDGE

  /** key stands for the identity of the node object, which the source keeps as a pointer. */
  datatype Node = Node(key: nat, name: string, ip: string, username: string, status: NodeStatus, role: Role)

  // ---------- status changes ----------

  function FromTo(nodes: seq<Node>, from: NodeStatus, to: NodeStatus): (out: seq<Node>)
    ensures |out| == |nodes|
    ensures forall i :: 0 <= i < |nodes| ==> out[i] == if nodes[i].status == from then nodes[i].(status := to) else nodes[i]
  {
    seq(|nodes|, i requires 0 <= i < |nodes| => if nodes[i].status == from then nodes[i].(status := to) else nodes[i])
  }

  /** The stop path: every node that was not already gone or never started is to be deleted. */
  function MarkDeleting(nodes: seq<Node>): (out: seq<Node>)
    ensures |out| == |nodes|
    ensures forall i :: 0 <= i < |nodes| ==>
                          out[i] == if nodes[i].status in {NODE_UNSPECIFIED, NODE_DELETED} then nodes[i] else nodes[i].(status := NODE_DELETING)
  {
    seq(|nodes|, i requires 0 <= i < |nodes| =>
      if nodes[i].status in {NODE_UNSPECIFIED, NODE_DELETED} then nodes[i] else nodes[i].(status := NODE_DELETING))
  }

  function AllTo(nodes: seq<Node>, to: NodeStatus): (out: seq<Node>)
    ensures |out| == |nodes|
    ensures forall i :: 0 <= i < |nodes| ==> out[i] == nodes[i].(status := to)
  {
    seq(|nodes|, i requires 0 <= i < |nodes| => nodes[i].(status := to))
  }

  // ---------- level ----------

  const MAX_INT32: int := 0x7FFF_FFFF
  const TWO_TO_THE_31: int := 0x8000_0000

  type int32 = x: int | -TWO_TO_THE_31 <= x <= MAX_INT32

  /** int32 addition wraps around. */
  function AddInt32(a: int32, b: int32): int32 {
    (a + b + TWO_TO_THE_31) % 0x1_0000_0000 - TWO_TO_THE_31
  }

  function TotalSize(sizes: seq<int32>): int32 {
    if sizes == [] then 0 else AddInt32(TotalSize(sizes[..|sizes| - 1]), sizes[|sizes| - 1])
  }

  /** No level is chosen for 100 up to 199 nodes. */
  function LevelFor(total: int): Level {
    if total < 50 then BASIC else if total < 100 then ADVANCED else if total >= 200 then STANDARD else NO_LEVEL
  }

  function Sum(sizes: seq<int32>): int {
    if sizes == [] then 0 else Sum(sizes[..|sizes| - 1]) + sizes[|sizes| - 1]
  }

  /** The total is the sum, up to the multiples of 2^32 the additions lose. */
  lemma {:induction false} TotalIsWrappedSum(sizes: seq<int32>) returns (lost: int)
    ensures Sum(sizes) == TotalSize(sizes) + lost * 0x1_0000_0000
    ensures -TWO_TO_THE_31 <= Sum(sizes) <= MAX_INT32 ==> TotalSize(sizes) == Sum(sizes)
  {
    lost := 0;
    if sizes != [] {
      var n := |sizes| - 1;
      var before := TotalIsWrappedSum(sizes[..n]);
      var x := TotalSize(sizes[..n]) + sizes[n] + TWO_TO_THE_31;
      lost := before + x / 0x1_0000_0000;
    }
  }

  // ---------- bare-metal nodes ----------

  predicate HasIp(nodes: seq<Node>, ip: string) {
    exists i :: 0 <= i < |nodes| && nodes[i].ip == ip
  }

  function NewNode(key: nat, position: nat, ip: string, username: string): Node {
    Node(key, "node" + Itoa(position), ip, username, NODE_FINDING, WORKER)
  }

  /** The list after looking at the first n addresses. */
  function AddMissing(nodes: seq<Node>, ips: seq<string>, n: nat, firstKey: nat, username: string): (out: seq<Node>)
    requires n <= |ips|
    ensures |nodes| <= |out| && out[..|nodes|] == nodes
  {
    if n == 0 then nodes
    else
      var out := AddMissing(nodes, ips, n - 1, firstKey, username);
      if HasIp(out, ips[n - 1]) then out
      else out + [NewNode(firstKey + (|out| - |nodes|), n, ips[n - 1], username)]
  }

  lemma {:induction false} AddMissingStep(nodes: seq<Node>, ips: seq<string>, n: nat, firstKey: nat, username: string)
    requires n < |ips|
    ensures var out := AddMissing(nodes, ips, n, firstKey, username);
            AddMissing(nodes, ips, n + 1, firstKey, username)
            == if HasIp(out, ips[n]) then out
               else out + [NewNode(firstKey + (|out| - |nodes|), n + 1, ips[n], username)]
  {
  }

  predicate HasMaster(nodes: seq<Node>) {
    exists i :: 0 <= i < |nodes| && nodes[i].role == MASTER
  }

  function ElectMaster(nodes: seq<Node>): (out: seq<Node>)
    ensures |out| == |nodes|
  {
    if HasMaster(nodes) || nodes == [] then nodes else nodes[0 := nodes[0].(role := MASTER)]
  }

  function MarkOutside(nodes: seq<Node>, ips: seq<string>): (out: seq<Node>)
    ensures |out| == |nodes|
    ensures forall i :: 0 <= i < |nodes| ==> out[i] == if nodes[i].ip in ips then nodes[i] else nodes[i].(status := NODE_DELETING)
  {
    seq(|nodes|, i requires 0 <= i < |nodes| => if nodes[i].ip in ips then nodes[i] else nodes[i].(status := NODE_DELETING))
  }

  function BareMetalNodes(nodes: seq<Node>, ips: seq<string>, firstKey: nat, username: string): seq<Node> {
    MarkOutside(ElectMaster(AddMissing(nodes, ips, |ips|, firstKey, username)), ips)
  }

  predicate DistinctIps(nodes: seq<Node>) {
    forall i, j :: 0 <= i < j < |nodes| ==> nodes[i].ip != nodes[j].ip
  }

  lemma {:induction false} AddMissingFacts(nodes: seq<Node>, ips: seq<string>, n: nat, firstKey: nat, username: string)
    requires n <= |ips|
    ensures AddedOnly(nodes, ips, AddMissing(nodes, ips, n, firstKey, username), firstKey)
    ensures DistinctIps(nodes) ==> DistinctIps(AddMissing(nodes, ips, n, firstKey, username))
  {
    if n > 0 {
      AddMissingFacts(nodes, ips, n - 1, firstKey, username);
    }
  }

  predicate AllNamed(nodes: seq<Node>, from: nat, ips: seq<string>, username: string) {
    forall i :: from <= i < |nodes| ==> nodes[i].username == username && NamedByPosition(nodes[i], ips)
  }

  lemma {:induction false} AddedNames(nodes: seq<Node>, ips: seq<string>, n: nat, firstKey: nat, username: string)
    requires n <= |ips|
    ensures AllNamed(AddMissing(nodes, ips, n, firstKey, username), |nodes|, ips, username)
  {
    if n > 0 {
      AddedNames(nodes, ips, n - 1, firstKey, username);
      var before, out := AddMissing(nodes, ips, n - 1, firstKey, username), AddMissing(nodes, ips, n, firstKey, username);
      if !HasIp(before, ips[n - 1]) {
        var r := NewNode(firstKey + (|before| - |nodes|), n, ips[n - 1], username);
        assert out == before + [r];
        assert ips[n - 1] == r.ip && r.name == "node" + Itoa((n - 1) + 1);
        assert NamedByPosition(r, ips);
      }
    }
  }

  /** Past the old nodes there are only new ones: of listed addresses, to be found, workers, with keys of their own. */
  predicate AddedOnly(nodes: seq<Node>, ips: seq<string>, out: seq<Node>, firstKey: nat) {
    forall i :: |nodes| <= i < |out| ==>
                  out[i].ip in ips && out[i].status == NODE_FINDING && out[i].role == WORKER
                  && out[i].key == firstKey + (i - |nodes|)
  }

  /** The node is called after the position of its address in the range, from 1 on. */
  predicate NamedByPosition(r: Node, ips: seq<string>) {
    exists n :: 0 <= n < |ips| && ips[n] == r.ip && r.name == "node" + Itoa(n + 1)
  }

  lemma {:induction false} AddMissingCovers(nodes: seq<Node>, ips: seq<string>, n: nat, firstKey: nat, username: string)
    requires n <= |ips|
    ensures forall i :: 0 <= i < n ==> HasIp(AddMissing(nodes, ips, n, firstKey, username), ips[i])
  {
    if n > 0 {
      AddMissingCovers(nodes, ips, n - 1, firstKey, username);
      var prev := AddMissing(nodes, ips, n - 1, firstKey, username);
      var out := AddMissing(nodes, ips, n, firstKey, username);
      forall i | 0 <= i < n ensures HasIp(out, ips[i]) {
        if HasIp(prev, ips[i]) {
          var k :| 0 <= k < |prev| && prev[k].ip == ips[i];
          assert out[k].ip == ips[i];
        } else {
          assert out[|prev|].ip == ips[i];
        }
      }
    }
  }

  lemma {:induction false} AddMissingNothing(nodes: seq<Node>, ips: seq<string>, n: nat, firstKey: nat, username: string)
    requires n <= |ips| && forall i :: 0 <= i < n ==> HasIp(nodes, ips[i])
    ensures AddMissing(nodes, ips, n, firstKey, username) == nodes
  {
    if n > 0 {
      AddMissingNothing(nodes, ips, n - 1, firstKey, username);
    }
  }

  lemma {:induction false} BareMetalCoversRange(nodes: seq<Node>, ips: seq<string>, firstKey: nat, username: string, ip: string)
    requires ip in ips
    ensures HasIp(BareMetalNodes(nodes, ips, firstKey, username), ip)
  {
    AddMissingCovers(nodes, ips, |ips|, firstKey, username);
    var n :| 0 <= n < |ips| && ips[n] == ip;
    var added := AddMissing(nodes, ips, |ips|, firstKey, username);
    var k :| 0 <= k < |added| && added[k].ip == ip;
    assert BareMetalNodes(nodes, ips, firstKey, username)[k].ip == ip;
  }

  lemma {:induction false} BareMetalHasMaster(nodes: seq<Node>, ips: seq<string>, firstKey: nat, username: string)
    ensures var out := BareMetalNodes(nodes, ips, firstKey, username); out == [] || HasMaster(out)
  {
    var added := AddMissing(nodes, ips, |ips|, firstKey, username);
    ElectMasterElects(added);
    if added != [] {
      var m :| 0 <= m < |added| && ElectMaster(added)[m].role == MASTER;
      assert BareMetalNodes(nodes, ips, firstKey, username)[m].role == MASTER;
    }
  }

  /** r is what an old node becomes. */
  predicate KeptNode(was: Node, ips: seq<string>, r: Node) {
    && r.key == was.key && r.ip == was.ip && r.name == was.name && r.username == was.username
    && r.status == if was.ip in ips then was.status else NODE_DELETING
  }

  /**
   The node list matches the range exactly: each listed address has exactly one node, old nodes
   in the range keep their status, nodes outside it are to be deleted, added nodes are to be
   found, and some node is a master unless the list is empty. Roles stay as they are, but for the
   first node's if there was no master.
   */
  lemma {:induction false} BareMetalMatchesRange(nodes: seq<Node>, ips: seq<string>, firstKey: nat, username: string)
    requires DistinctIps(nodes)
    ensures var out := BareMetalNodes(nodes, ips, firstKey, username);
            && |nodes| <= |out|
            && DistinctIps(out)
            && (forall ip :: ip in ips ==> HasIp(out, ip))
            && (forall i :: 0 <= i < |nodes| ==> KeptNode(nodes[i], ips, out[i]))
            && (forall i :: |nodes| <= i < |out| ==>
                              out[i].ip in ips && out[i].status == NODE_FINDING)
            && AllNamed(out, |nodes|, ips, username)
            && (out == [] || HasMaster(out))
            && (forall i :: 0 <= i < |out| && (i > 0 || HasMaster(nodes)) ==>
                              out[i].role == if i < |nodes| then nodes[i].role else WORKER)
  {
    AddMissingFacts(nodes, ips, |ips|, firstKey, username);
    AddMissingCovers(nodes, ips, |ips|, firstKey, username);
    BareMetalNames(nodes, ips, firstKey, username);
    BareMetalRoles(nodes, ips, firstKey, username);
    BareMetalHasMaster(nodes, ips, firstKey, username);
    var added := AddMissing(nodes, ips, |ips|, firstKey, username);
    var out := BareMetalNodes(nodes, ips, firstKey, username);
    SameButRole(added, ips);
    forall ip | ip in ips ensures HasIp(out, ip) {
      BareMetalCoversRange(nodes, ips, firstKey, username, ip);
    }
    forall i | 0 <= i < |nodes| ensures added[i] == nodes[i] {
      assert added[i] == added[..|nodes|][i];
    }
  }

  lemma {:induction false} BareMetalNames(nodes: seq<Node>, ips: seq<string>, firstKey: nat, username: string)
    ensures var out := BareMetalNodes(nodes, ips, firstKey, username);
            AllNamed(out, |nodes|, ips, username)
  {
    var added := AddMissing(nodes, ips, |ips|, firstKey, username);
    var out := BareMetalNodes(nodes, ips, firstKey, username);
    AddedNames(nodes, ips, |ips|, firstKey, username);
    SameButRole(added, ips);
    forall i | |nodes| <= i < |out| ensures NamedByPosition(out[i], ips) {
      assert NamedByPosition(added[i], ips) && out[i].ip == added[i].ip && out[i].name == added[i].name;
    }
  }

  lemma {:induction false} BareMetalRoles(nodes: seq<Node>, ips: seq<string>, firstKey: nat, username: string)
    ensures var out := BareMetalNodes(nodes, ips, firstKey, username);
            && |nodes| <= |out|
            && forall i :: 0 <= i < |out| && (i > 0 || HasMaster(nodes)) ==> out[i].role == if i < |nodes| then nodes[i].role else WORKER
  {
    var added := AddMissing(nodes, ips, |ips|, firstKey, username);
    AddMissingFacts(nodes, ips, |ips|, firstKey, username);
    forall i | 0 <= i < |nodes| ensures added[i] == nodes[i] {
      assert added[i] == added[..|nodes|][i];
    }
    if HasMaster(nodes) {
      var m :| 0 <= m < |nodes| && nodes[m].role == MASTER;
      assert added[m].role == MASTER;
    }
  }

  lemma {:induction false} SameButRole(added: seq<Node>, ips: seq<string>)
    ensures var out := MarkOutside(ElectMaster(added), ips);
            forall i :: 0 <= i < |out| ==> KeptNode(added[i], ips, out[i])
  {
  }

  lemma {:induction false} ElectMasterElects(nodes: seq<Node>)
    ensures nodes == [] || HasMaster(ElectMaster(nodes))
  {
    if nodes != [] && !HasMaster(nodes) {
      assert ElectMaster(nodes)[0].role == MASTER;
    }
  }

  /** A second pass over the same range changes nothing. */
  lemma {:induction false} BareMetalIdempotent(nodes: seq<Node>, ips: seq<string>, firstKey: nat, secondKey: nat, username: string)
    requires DistinctIps(nodes)
    ensures var out := BareMetalNodes(nodes, ips, firstKey, username);
            BareMetalNodes(out, ips, secondKey, username) == out
  {
    var out := BareMetalNodes(nodes, ips, firstKey, username);
    BareMetalMatchesRange(nodes, ips, firstKey, username);
    forall i | 0 <= i < |ips| ensures HasIp(out, ips[i]) {
      assert ips[i] in ips;
    }
    AddMissingNothing(out, ips, |ips|, secondKey, username);
    SameButRole(AddMissing(nodes, ips, |ips|, firstKey, username), ips);
    assert forall i :: 0 <= i < |out| && out[i].ip !in ips ==> out[i].status == NODE_DELETING;
  }

  // ---------- the cluster object ----------

  class Cluster {
    const id: int
    const provider: Provider
    const nodeUsername: string
    const nodeStartIp: string
    const nodeEndIp: string
    var status: ClusterStatus
    var level: Level
    var groupSizes: seq<int32>
    var nodes: seq<Node>
    var nextKey: nat
    var vpcCidr: CidrText
    var kubernetesCidrs: Option<KubernetesCidrs>
    var subnetCidrs: seq<Network>

    constructor (id: int, provider: Provider, username: string, startIp: string, endIp: string)
      ensures this.id == id && this.provider == provider && nodeUsername == username
      ensures nodeStartIp == startIp && nodeEndIp == endIp
      ensures status == UNSPECIFIED && level == NO_LEVEL && groupSizes == [] && nodes == []
      ensures vpcCidr.Bad? && kubernetesCidrs.None? && subnetCidrs == []
    {
      this.id, this.provider, nodeUsername, nodeStartIp, nodeEndIp := id, provider, username, startIp, endIp;
      status, level, groupSizes, nodes, nextKey := UNSPECIFIED, NO_LEVEL, [], [], 0;
      vpcCidr, kubernetesCidrs, subnetCidrs := Bad, None, [];
    }

    method SetNodeStatusFromTo(from: NodeStatus, to: NodeStatus)
      modifies this`nodes
      ensures nodes == FromTo(old(nodes), from, to)
    {
      ghost var was := nodes;
      for i := 0 to |nodes|
        invariant |nodes| == |was|
        invariant forall k :: 0 <= k < i ==> nodes[k] == FromTo(was, from, to)[k]
        invariant forall k :: i <= k < |was| ==> nodes[k] == was[k]
      {
        if nodes[i].status == from {
          nodes := nodes[i := nodes[i].(status := to)];
        }
      }
    }

    /** True when the number of wanted nodes calls for another level than the present one. */
    method SettingClusterLevelByNodeNumber() returns (changed: bool)
      modifies this`level
      ensures var wanted := LevelFor(TotalSize(groupSizes));
              && changed == (wanted != NO_LEVEL && wanted != old(level))
              && level == if changed then wanted else old(level)
      ensures var total := TotalSize(groupSizes);
              && (total < 50 ==> level == BASIC)
              && (50 <= total < 100 ==> level == ADVANCED)
              && (100 <= total < 200 ==> level == old(level))
              && (200 <= total ==> level == STANDARD)
              && changed == (level != old(level))
    {
      var total: int32 := 0;
      for i := 0 to |groupSizes|
        invariant total == TotalSize(groupSizes[..i])
      {
        assert groupSizes[..i + 1][..i] == groupSizes[..i];
        total := AddInt32(total, groupSizes[i]);
      }
      assert groupSizes[..|groupSizes|] == groupSizes;
      var wanted := NO_LEVEL;
      if total < 50 {
        wanted := BASIC;
      }
      if total < 100 && total >= 50 {
        wanted := ADVANCED;
      }
      if total >= 200 {
        wanted := STANDARD;
      }
      changed := level != wanted && wanted != NO_LEVEL;
      if changed {
        level := wanted;
      }
    }

    function Ips(): seq<string> { Listed(nodeStartIp, nodeEndIp) }

    method SetBareMetalNode()
      requires Ip4ToUint32(nodeEndIp) < MAX_UINT32
      modifies this`nodes, this`nextKey
      ensures nodes == BareMetalNodes(old(nodes), Ips(), old(nextKey), nodeUsername)
      ensures nextKey == old(nextKey) + (|nodes| - |old(nodes)|)
    {
      var ips := RangeIps(nodeStartIp, nodeEndIp);
      AddMissingNodes(ips);
      if !HasMaster(nodes) && |nodes| > 0 {
        nodes := nodes[0 := nodes[0].(role := MASTER)];
      }
      MarkDeletingOutside(ips);
    }

    method AddMissingNodes(ips: seq<string>)
      modifies this`nodes, this`nextKey
      ensures nodes == AddMissing(old(nodes), ips, |ips|, old(nextKey), nodeUsername)
      ensures nextKey == old(nextKey) + (|nodes| - |old(nodes)|)
    {
      ghost var was, firstKey := nodes, nextKey;
      for i := 0 to |ips|
        invariant nodes == AddMissing(was, ips, i, firstKey, nodeUsername)
        invariant nextKey == firstKey + (|nodes| - |was|)
      {
        AddMissingStep(was, ips, i, firstKey, nodeUsername);
        if !HasIp(nodes, ips[i]) {
          nodes := nodes + [NewNode(nextKey, i + 1, ips[i], nodeUsername)];
          nextKey := nextKey + 1;
        }
      }
    }

    method MarkDeletingOutside(ips: seq<string>)
      modifies this`nodes
      ensures nodes == MarkOutside(old(nodes), ips)
    {
      ghost var was := nodes;
      for i := 0 to |nodes|
        invariant |nodes| == |was|
        invariant forall k :: 0 <= k < i ==> nodes[k] == MarkOutside(was, ips)[k]
        invariant forall k :: i <= k < |nodes| ==> nodes[k] == was[k]
      {
        if nodes[i].ip !in ips {
          nodes := nodes[i := nodes[i].(status := NODE_DELETING)];
        }
      }
    }

    /**
     Succeeds exactly for ids 1 to 159; the pod, service and VPC ranges are then pairwise apart
     and ten equal subnets lie inside the VPC, pairwise apart. On failure only the VPC range is
     written, which a caller that ignores the error then works with.
     */
    method SetCidr() returns (ok: bool)
      modifies this`vpcCidr, this`kubernetesCidrs, this`subnetCidrs
      ensures ok <==> 1 <= id <= 159
      ensures vpcCidr == if 1 <= id <= 255 then Slash16(10, id) else Bad
      ensures !ok ==> kubernetesCidrs == old(kubernetesCidrs) && subnetCidrs == old(subnetCidrs)
      ensures ok ==>
                && vpcCidr.Good? && kubernetesCidrs.Some?
                && !Meets(kubernetesCidrs.value.pod, vpcCidr.net)
                && !Meets(kubernetesCidrs.value.service, vpcCidr.net)
                && !Meets(kubernetesCidrs.value.service, kubernetesCidrs.value.pod)
                && |subnetCidrs| == 10
                && (forall i :: 0 <= i < 10 ==> Inside(subnetCidrs[i], vpcCidr.net) && subnetCidrs[i].ones == 20)
                && (forall i, j :: 0 <= i < j < 10 ==> !Meets(subnetCidrs[i], subnetCidrs[j]))
    {
      var vpc := GenerateClusterCidr(id);
      if vpc.Err? {
        vpcCidr := Bad;
        return false;
      }
      vpcCidr := vpc.value;
      var kubernetes := GenerateKubernetesCidrs(id, vpcCidr);
      KubernetesCidrsExist(id, kubernetes);
      if kubernetes.Err? {
        return false;
      }
      kubernetesCidrs := Some(kubernetes.value);
      assert CeilLog2(10) == 4;
      var subnets := GenerateSubnets(vpcCidr, 10);
      if subnets.Err? {
        return false;
      }
      subnetCidrs := subnets.value;
      Slash16Meet(172, id, 10, id);
      Slash16Meet(10, 96 + id, 10, id);
      Slash16Meet(10, 96 + id, 172, id);
      ok := true;
    }
  }
}
