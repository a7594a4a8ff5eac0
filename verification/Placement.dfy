/** Spreading the nodes of a cluster over its private subnets. */
module Placement {
  import opened Wrappers
  import opened Arith
  import opened Registry
  import opened RegistryFacts

  /** The subnet position chosen for a node position. */
  function SubnetIndex(nodes: nat, subnets: nat, node: nat): (j: nat)
    requires subnets > 0
    ensures j < subnets
  {
    if nodes <= subnets then node % subnets
    else (node / Interval(nodes, subnets)) % subnets
  }

  function Interval(nodes: nat, subnets: nat): (q: nat)
    requires 0 < subnets < nodes
    ensures q > 0
  {
    QuotientBelow(nodes, subnets, 1);
    nodes / subnets
  }

  /** DistributeNodePrivateSubnets: no private subnet, no answer. */
  function DistributeNodePrivateSubnets(resources: Resources, nodes: nat, nodeIndex: nat): Option<CloudResource> {
    var subnets := PrivateSubnets(resources);
    if |subnets| == 0 then None else Some(subnets[SubnetIndex(nodes, |subnets|, nodeIndex)])
  }

  function PrivateSubnets(resources: Resources): (out: Resources)
    ensures forall r :: r in out <==> r in resources && Matches(r, Query(SUBNET, None, Some(PRIVATE), None))
  {
    if resources == [] then []
    else if Matches(resources[0], Query(SUBNET, None, Some(PRIVATE), None)) then [resources[0]] + PrivateSubnets(resources[1..])
    else PrivateSubnets(resources[1..])
  }

  /** Each private subnet is listed once, in the order of the record: distinct references stay distinct. */
  lemma {:induction false} PrivateSubnetsDistinct(resources: Resources)
    requires DistinctRefs(resources, SUBNET)
    ensures DistinctRefs(PrivateSubnets(resources), SUBNET)
    ensures forall i, j :: 0 <= i < j < |PrivateSubnets(resources)| ==> PrivateSubnets(resources)[i].refId != PrivateSubnets(resources)[j].refId
  {
    if resources != [] {
      var rest := PrivateSubnets(resources[1..]);
      PrivateSubnetsDistinct(resources[1..]);
      if Matches(resources[0], Query(SUBNET, None, Some(PRIVATE), None)) {
        forall j | 0 <= j < |rest| ensures rest[j].refId != resources[0].refId && rest[j].kind == SUBNET {
          assert rest[j] in resources[1..];
          var k :| 0 <= k < |resources[1..]| && resources[1..][k] == rest[j];
          assert resources[k + 1] == rest[j];
        }
      }
    }
  }

  /** How many of the first upTo nodes are placed in subnet j. */
  function Load(nodes: nat, subnets: nat, j: nat, upTo: nat): nat
    requires subnets > 0
  {
    if upTo == 0 then 0
    else Load(nodes, subnets, j, upTo - 1) + (if SubnetIndex(nodes, subnets, upTo - 1) == j then 1 else 0)
  }

  function Clamp(x: int, q: nat): nat {
    if x < 0 then 0 else if x < q then x else q
  }

  lemma {:induction false} WindowOf(u: nat, q: nat, b: nat)
    requires q > 0
    ensures u / q == b <==> b * q <= u < b * q + q
  {
    DivMul(u, q);
    if b * q <= u < b * q + q {
      DivModUnique(u, q, b, u - b * q);
    }
  }

  lemma {:induction false} WrapsAtMostOnce(b: nat, s: nat, j: nat)
    requires j < s && b < 2 * s
    ensures b % s == j <==> b == j || b == s + j
  {
  }

  /** A node position inside the cluster falls in a window below 2 * subnets. */
  lemma {:induction false} FewWindows(nodes: nat, subnets: nat, node: nat)
    requires 0 < subnets < nodes && node < nodes
    ensures node / Interval(nodes, subnets) < 2 * subnets
  {
    var q := Interval(nodes, subnets);
    DivMul(nodes, subnets);
    MulLower(q, subnets);
    assert nodes < q * subnets + subnets <= 2 * (q * subnets);
    MulAssoc(2, subnets, q);
    assert (2 * subnets) * q == 2 * (q * subnets);
    QuotientBelow(node, q, 2 * subnets);
  }

  lemma {:induction false} LoadSoFar(nodes: nat, subnets: nat, j: nat, upTo: nat)
    requires j < subnets < nodes && upTo <= nodes
    ensures var q := Interval(nodes, subnets);
            Load(nodes, subnets, j, upTo) == Clamp(upTo - j * q, q) + Clamp(upTo - (subnets + j) * q, q)
  {
    var q := Interval(nodes, subnets);
    MulMonotone(0, j, q);
    WindowBefore(j, subnets + j, q);
    if upTo > 0 {
      var u := upTo - 1;
      LoadSoFar(nodes, subnets, j, u);
      FewWindows(nodes, subnets, u);
      WrapsAtMostOnce(u / q, subnets, j);
      WindowOf(u, q, j);
      WindowOf(u, q, subnets + j);
    }
  }

  /** With more nodes than subnets, subnet j gets the quotient plus its share of the remainder. */
  lemma {:induction false} LoadIsExact(nodes: nat, subnets: nat, j: nat)
    requires j < subnets < nodes
    ensures var q, r := nodes / subnets, nodes % subnets;
            && Load(nodes, subnets, j, nodes) == q + Clamp(r - j * q, q)
            && q <= Load(nodes, subnets, j, nodes) <= 2 * q
  {
    var q, r := Interval(nodes, subnets), nodes % subnets;
    LoadSoFar(nodes, subnets, j, nodes);
    DivMul(nodes, subnets);
    WindowBefore(j, subnets, q);
    assert (subnets + j) * q == q * subnets + j * q;
  }

  /** With enough subnets, different nodes are placed in different subnets. */
  lemma {:induction false} FewNodesApart(nodes: nat, subnets: nat, a: nat, b: nat)
    requires a < b < nodes <= subnets
    ensures SubnetIndex(nodes, subnets, a) == a != b == SubnetIndex(nodes, subnets, b)
  {
    DivModUnique(a, subnets, 0, a);
    DivModUnique(b, subnets, 0, b);
  }

  /** The same for the subnets themselves, if their references are distinct; and what is chosen is a recorded private subnet. */
  lemma {:induction false} FewNodesInDifferentSubnets(resources: Resources, nodes: nat, a: nat, b: nat)
    requires a < b < nodes <= |PrivateSubnets(resources)|
    requires DistinctRefs(resources, SUBNET)
    ensures var x, y := DistributeNodePrivateSubnets(resources, nodes, a), DistributeNodePrivateSubnets(resources, nodes, b);
            && x.Some? && y.Some? && x.value.refId != y.value.refId
            && x.value in resources && Matches(x.value, Query(SUBNET, None, Some(PRIVATE), None))
  {
    PrivateSubnetsDistinct(resources);
    FewNodesApart(nodes, |PrivateSubnets(resources)|, a, b);
    assert PrivateSubnets(resources)[a] in PrivateSubnets(resources);
  }
}
