/**
 Prefix blocks (RFC 4632, section 3.1) and the allocator that carves /24 blocks, numbered
 sub-blocks and Kubernetes ranges out of them.

 A CIDR text is represented by what the standard library's parser makes of it: a network or
 an error.
 */
module Cidr {
  import opened Wrappers
  import opened Bits
  import opened Arith

  /** net.IPNet: the masked base address (4 or 16 bytes) and the number of leading mask ones. */
  datatype Net = Net(ip: seq<byte>, ones: nat) {
    function AddressBits(): nat { 8 * |ip| }

    function Base(): nat { ToNat(ip) }

    function Size(): (r: nat)
      requires ones <= AddressBits()
      ensures r > 0
    {
      Pow2(AddressBits() - ones)
    }

    predicate Valid() {
      && (|ip| == 4 || |ip| == 16)
      && ones <= AddressBits()
      && Base() % Size() == 0
    }
  }

  type Network = n: Net | n.Valid() witness Net([0, 0, 0, 0], 32)

  datatype CidrText = Bad | Good(net: Network)

  datatype CidrError = ParseError | VpcTooSmall | NoAvailableSubnet | InsufficientSpace | InvalidClusterId | NoPodCidr | NoServiceCidr

  // ---------- address sets ----------

  /** The address a belongs to the block n. */
  predicate Covers(n: Network, a: nat) {
    n.Base() <= a < n.Base() + n.Size()
  }

  /** The two blocks share an address. */
  ghost predicate Meets(m: Network, n: Network) {
    |m.ip| == |n.ip| && exists a: nat :: Covers(m, a) && Covers(n, a)
  }

  /** Every address of n is an address of p. */
  ghost predicate Inside(n: Network, p: Network) {
    |n.ip| == |p.ip| && forall a: nat :: Covers(n, a) ==> Covers(p, a)
  }

  // ---------- overlap test ----------

  /** net.IPNet.Contains: equal length and equal bits under the mask. */
  predicate Contains(n: Network, ip: seq<byte>) {
    |ip| == |n.ip| && ToNat(ip) / n.Size() == n.Base() / n.Size()
  }

  function IsSubnetOverlap(cidr1: CidrText, cidr2: CidrText): Result<bool, CidrError> {
    match cidr1
    case Bad => Err(ParseError)
    case Good(network1) =>
      match cidr2
      case Bad => Err(ParseError)
      case Good(network2) => Ok(Contains(network1, network2.ip) || Contains(network2, network1.ip))
  }

  lemma {:induction false} ContainsIsCovers(n: Network, ip: seq<byte>)
    requires |ip| == |n.ip|
    ensures Contains(n, ip) <==> Covers(n, ToNat(ip))
  {
    AlignedWindow(n.Base(), n.Size(), ToNat(ip));
  }

  /** Two addresses of a small block lie in the same larger block. */
  lemma {:induction false} SameLargeBlock(small: Network, big: Network, a: nat)
    requires |big.ip| == |small.ip| && big.ones <= small.ones && Covers(small, a)
    ensures a / big.Size() == small.Base() / big.Size()
  {
    var rest := small.AddressBits() - small.ones;
    Pow2Add(rest, small.ones - big.ones);
    SameWindow(small.Base(), small.Size(), a, Pow2(small.ones - big.ones));
  }

  /** Testing each base address against the other block decides whether the address sets intersect. */
  lemma {:induction false} OverlapIsExact(m: Network, n: Network)
    ensures IsSubnetOverlap(Good(m), Good(n)) == Ok(Meets(m, n))
  {
    if |m.ip| == |n.ip| {
      ContainsIsCovers(m, n.ip);
      ContainsIsCovers(n, m.ip);
      assert Covers(m, m.Base()) && Covers(n, n.Base());
      if Meets(m, n) {
        var a: nat :| Covers(m, a) && Covers(n, a);
        if m.ones <= n.ones {
          SharedAddressMeansContained(m, n, a);
        } else {
          SharedAddressMeansContained(n, m, a);
        }
      }
    }
  }

  lemma {:induction false} SharedAddressMeansContained(big: Network, small: Network, a: nat)
    requires |big.ip| == |small.ip| && big.ones <= small.ones
    requires Covers(big, a) && Covers(small, a)
    ensures Contains(big, small.ip)
  {
    SameLargeBlock(small, big, a);
    AlignedWindow(big.Base(), big.Size(), a);
  }

  /** Of two prefix blocks that share an address, the one with the shorter prefix holds the other. */
  lemma {:induction false} BlocksNestOrAreApart(big: Network, small: Network)
    requires |big.ip| == |small.ip| && big.ones <= small.ones
    ensures Inside(small, big) || !Meets(big, small)
  {
    if Meets(big, small) {
      var a: nat :| Covers(big, a) && Covers(small, a);
      forall b: nat | Covers(small, b) ensures Covers(big, b) {
        SameLargeBlock(small, big, a);
        SameLargeBlock(small, big, b);
        AlignedWindow(big.Base(), big.Size(), a);
        AlignedWindow(big.Base(), big.Size(), b);
      }
    }
  }

  // ---------- numbered sub-blocks ----------

  /** r is sub-block number num of p when the prefix grows by newBits. */
  ghost predicate IsBlock(r: Network, p: Network, newBits: nat, num: nat) {
    && |r.ip| == |p.ip|
    && r.ones == p.ones + newBits
    && r.Base() == p.Base() + num * r.Size()
  }

  lemma {:induction false} ParentSize(r: Network, p: Network, newBits: nat)
    requires |r.ip| == |p.ip| && r.ones == p.ones + newBits
    ensures p.Size() == Pow2(newBits) * r.Size()
  {
    Pow2Add(newBits, r.AddressBits() - r.ones);
  }

  lemma {:induction false} BlockIsInside(r: Network, p: Network, newBits: nat, num: nat)
    requires IsBlock(r, p, newBits, num) && num < Pow2(newBits)
    ensures Inside(r, p)
  {
    ParentSize(r, p, newBits);
    WindowWithin(num, Pow2(newBits), r.Size());
    MulMonotone(0, num, r.Size());
  }

  lemma {:induction false} DifferentBlocksAreApart(r: Network, q: Network, p: Network, newBits: nat, i: nat, j: nat)
    requires IsBlock(r, p, newBits, i) && IsBlock(q, p, newBits, j) && i < j
    ensures !Meets(r, q) && r.Base() < q.Base()
  {
    WindowBefore(i, j, r.Size());
  }

  /** Every block of the right size inside the parent is one of the numbered blocks. */
  lemma {:induction false} InsideBlockHasNumber(r: Network, p: Network, newBits: nat) returns (num: nat)
    requires Inside(r, p) && r.ones == p.ones + newBits
    ensures num < Pow2(newBits) && IsBlock(r, p, newBits, num)
  {
    var s, count := r.Size(), Pow2(newBits);
    ParentSize(r, p, newBits);
    assert Covers(r, r.Base()) && Covers(r, r.Base() + s - 1);
    AlignedSteps(p.Base(), count, s, 0);
    num := WindowNumber(p.Base(), count, s, r.Base());
  }

  /**
   The numbered blocks tile the parent: its addresses are those whose quotient is the number of a
   block, and of all blocks exactly the one of that number covers the address.
   */
  lemma {:induction false} BlocksTileParent(p: Network, newBits: nat, a: nat)
    requires p.ones + newBits <= p.AddressBits()
    ensures var s := Pow2(p.AddressBits() - p.ones - newBits);
            Covers(p, a) <==> a >= p.Base() && (a - p.Base()) / s < Pow2(newBits)
    ensures var s := Pow2(p.AddressBits() - p.ones - newBits);
            forall r: Network, num: nat :: IsBlock(r, p, newBits, num) && a >= p.Base() ==>
              (Covers(r, a) <==> (a - p.Base()) / s == num)
  {
    var rest := p.AddressBits() - p.ones - newBits;
    Pow2Add(newBits, rest);
    if a >= p.Base() {
      QuotientBelow(a - p.Base(), Pow2(rest), Pow2(newBits));
      forall r: Network, num: nat | IsBlock(r, p, newBits, num)
        ensures Covers(r, a) <==> (a - p.Base()) / Pow2(rest) == num
      {
        QuotientIs(a - p.Base(), Pow2(rest), num);
      }
    }
  }

  lemma {:induction false} QuotientIs(d: nat, s: nat, num: nat)
    requires s > 0
    ensures d / s == num <==> num * s <= d < num * s + s
  {
    DivMul(d, s);
    if num * s <= d < num * s + s {
      DivModUnique(d, s, num, d - num * s);
    }
  }

  // ---------- byte conversions ----------

  function IpToInt(ip: seq<byte>): nat {
    ToNat(ip)
  }

  /** Packs the bytes of an integer into the end of a zeroed address. */
  method IntToIP(ipInt: nat, bits: nat) returns (ip: seq<byte>)
    requires bits % 8 == 0 && ipInt < Pow2(bits)
    ensures |ip| == bits / 8 && IpToInt(ip) == ipInt
  {
    var ipBytes := MinimalBytes(ipInt);
    var n := bits / 8;
    MinimalBytesFit(ipInt, n);
    var ret := new byte[n](_ => 0);
    var i := 1;
    while i <= |ipBytes|
      invariant 1 <= i <= |ipBytes| + 1
      invariant forall k :: 0 <= k < n - i + 1 ==> ret[k] == 0
      invariant forall k :: n - i + 1 <= k < n ==> ret[k] == ipBytes[k - (n - |ipBytes|)]
    {
      ret[n - i] := ipBytes[|ipBytes| - i];
      i := i + 1;
    }
    ip := ret[..];
    var zeros := ip[..n - |ipBytes|];
    assert ip == zeros + ipBytes;
    ToNatLeadingZeros(zeros, ipBytes);
  }

  /** Shift the number to its place and or it into the address, whose bits from there up to k more are zero. */
  method InsertNumIntoIP(ip: seq<byte>, num: nat, prefixLen: nat, ghost k: nat) returns (r: seq<byte>)
    requires k <= prefixLen <= 8 * |ip| && num < Pow2(k)
    requires ToNat(ip) % Pow2(8 * |ip| - prefixLen + k) == 0
    ensures |r| == |ip|
    ensures ToNat(r) == ToNat(ip) + num * Pow2(8 * |ip| - prefixLen)
  {
    var bits := 8 * |ip|;
    var ipInt, shift := IpToInt(ip), bits - prefixLen;
    var shifted := num * Pow2(shift);
    assert shifted >= 0;
    ShiftHasRoom(ipInt, num, shifted, k, shift, bits);
    r := IntToIP(BitOr(ipInt, shifted), bits);
  }

  lemma {:induction false} ShiftHasRoom(b: nat, num: nat, shifted: nat, k: nat, shift: nat, bits: nat)
    requires num < Pow2(k) && shifted == num * Pow2(shift) && shift + k <= bits
    requires b % Pow2(shift + k) == 0 && b < Pow2(bits)
    ensures BitOr(b, shifted) == b + shifted < Pow2(bits)
  {
    ShiftFits(num, k, shift);
    OrIsAddition(b, shifted, shift + k);
    Pow2Add(bits - (shift + k), shift + k);
    AlignedRoom(b, Pow2(shift + k), Pow2(bits - (shift + k)));
  }

  lemma {:induction false} ShiftFits(num: nat, k: nat, shift: nat)
    requires num < Pow2(k)
    ensures num * Pow2(shift) < Pow2(shift + k)
  {
    Pow2Add(k, shift);
    WindowWithin(num, Pow2(k), Pow2(shift));
  }

  const MAX_UINT64: nat := 0xFFFF_FFFF_FFFF_FFFF

  /** The largest number newBits bits can hold, as a uint64 shift computes it. */
  function MaxNetNum(newBits: nat): nat {
    if newBits < 64 then Pow2(newBits) - 1 else MAX_UINT64
  }

  method SubnetBig(p: Network, newBits: nat, num: nat) returns (r: Result<Network, CidrError>)
    requires num < 0x8000_0000_0000_0000
    ensures r.Ok? <==> p.ones + newBits <= p.AddressBits() && num < Pow2(newBits)
    ensures r.Ok? ==> IsBlock(r.value, p, newBits, num) && Inside(r.value, p)
    ensures r.Err? ==> r.error == InsufficientSpace
  {
    var newPrefixLen := p.ones + newBits;
    if newPrefixLen > p.AddressBits() {
      return Err(InsufficientSpace);
    }
    if newBits >= 64 {
      Pow2SixtyFour();
      Pow2Monotone(64, newBits);
    }
    if num > MaxNetNum(newBits) {
      return Err(InsufficientSpace);
    }
    var ip := InsertNumIntoIP(p.ip, num, newPrefixLen, newBits);
    var net := Net(ip, newPrefixLen);
    Pow2Add(newBits, p.AddressBits() - newPrefixLen);
    AlignedSteps(p.Base(), Pow2(newBits), net.Size(), num);
    BlockIsInside(net, p, newBits, num);
    r := Ok(net);
  }

  lemma {:induction false} Pow2Sixteen()
    ensures Pow2(16) == 0x1_0000
  {
    assert Pow2(8) == 256;
    Pow2Add(8, 8);
  }

  lemma {:induction false} Pow2ThirtyTwo()
    ensures Pow2(32) == 0x1_0000_0000
  {
    Pow2Sixteen();
    Pow2Add(16, 16);
  }

  lemma {:induction false} Pow2SixtyFour()
    ensures Pow2(64) == MAX_UINT64 + 1
  {
    Pow2ThirtyTwo();
    Pow2Add(32, 32);
  }

  lemma {:induction false} SmallPow2(n: nat)
    requires n <= 32
    ensures Pow2(n) <= 0x1_0000_0000
  {
    Pow2ThirtyTwo();
    Pow2Monotone(n, 32);
  }

  // ---------- first fit ----------

  /** The block cannot be handed out: some existing entry overlaps it or does not parse. */
  ghost predicate Blocked(n: Network, existing: seq<CidrText>) {
    exists c :: c in existing && (c.Bad? || Meets(n, c.net))
  }

  const TARGET_PREFIX: nat := 24

  ghost predicate BlockedBelow(vpc: Network, newBits: nat, i: nat, existing: seq<CidrText>) {
    forall n: Network, j: nat :: j < i && IsBlock(n, vpc, newBits, j) ==> Blocked(n, existing)
  }

  lemma {:induction false} OneMoreBlocked(r: Network, vpc: Network, newBits: nat, i: nat, existing: seq<CidrText>)
    requires BlockedBelow(vpc, newBits, i, existing) && IsBlock(r, vpc, newBits, i) && Blocked(r, existing)
    ensures BlockedBelow(vpc, newBits, i + 1, existing)
  {
  }

  lemma {:induction false} LowerBlocksBlocked(r: Network, vpc: Network, newBits: nat, i: nat, existing: seq<CidrText>)
    requires BlockedBelow(vpc, newBits, i, existing) && IsBlock(r, vpc, newBits, i)
    ensures forall n: Network :: Inside(n, vpc) && n.ones == r.ones && n.Base() < r.Base() ==> Blocked(n, existing)
  {
    forall n: Network | Inside(n, vpc) && n.ones == r.ones && n.Base() < r.Base() ensures Blocked(n, existing) {
      var j := InsideBlockHasNumber(n, vpc, newBits);
      if j > i {
        DifferentBlocksAreApart(r, n, vpc, newBits, i, j);
      }
    }
  }

  lemma {:induction false} AllBlocked(vpc: Network, newBits: nat, existing: seq<CidrText>)
    requires BlockedBelow(vpc, newBits, Pow2(newBits), existing)
    ensures forall n: Network :: Inside(n, vpc) && n.ones == vpc.ones + newBits ==> Blocked(n, existing)
  {
    forall n: Network | Inside(n, vpc) && n.ones == vpc.ones + newBits ensures Blocked(n, existing) {
      var j := InsideBlockHasNumber(n, vpc, newBits);
    }
  }

  // ---------- how many /24 blocks are left ----------

  /** The window of /24 block number j meets no entry, and every entry parses. */
  ghost predicate NumberFree(vpc: Network, j: nat, existing: seq<CidrText>)
    requires vpc.ones <= TARGET_PREFIX
  {
    var s := Pow2(vpc.AddressBits() - TARGET_PREFIX);
    forall c :: c in existing ==>
                  c.Good? && !(|c.net.ip| == |vpc.ip| && exists a: nat :: Covers(c.net, a) && vpc.Base() + j * s <= a < vpc.Base() + j * s + s)
  }

  /** The numbers of the /24 blocks that can still be handed out. */
  ghost function FreeNumbers(vpcCidr: CidrText, existing: seq<CidrText>): set<nat> {
    if vpcCidr.Bad? || vpcCidr.net.ones > TARGET_PREFIX then {}
    else set j: nat | j < Pow2(TARGET_PREFIX - vpcCidr.net.ones) && NumberFree(vpcCidr.net, j, existing)
  }

  lemma {:induction false} FreeIffNotBlocked(n: Network, vpc: Network, j: nat, existing: seq<CidrText>)
    requires vpc.ones <= TARGET_PREFIX && IsBlock(n, vpc, TARGET_PREFIX - vpc.ones, j)
    ensures NumberFree(vpc, j, existing) <==> !Blocked(n, existing)
  {
    if NumberFree(vpc, j, existing) {
      forall c | c in existing && c.Good? ensures !Meets(n, c.net) {
        if |n.ip| == |c.net.ip| {
          forall a: nat ensures !(Covers(n, a) && Covers(c.net, a)) {
          }
        }
      }
    }
    if !Blocked(n, existing) {
      forall c | c in existing
        ensures c.Good? && !(|c.net.ip| == |vpc.ip| && exists a: nat :: Covers(c.net, a) && n.Base() <= a < n.Base() + n.Size())
      {
        if c.Good? && |c.net.ip| == |vpc.ip| {
          forall a: nat | Covers(c.net, a) ensures !(n.Base() <= a < n.Base() + n.Size()) {
            assert !Meets(n, c.net);
          }
        }
      }
    }
  }

  /** Handing out a free /24 takes exactly one number. */
  lemma {:induction false} CarvingTakesOne(n: Network, vpcCidr: CidrText, existing: seq<CidrText>)
    requires vpcCidr.Good? && vpcCidr.net.ones <= TARGET_PREFIX
    requires Inside(n, vpcCidr.net) && n.ones == TARGET_PREFIX && !Blocked(n, existing)
    ensures |FreeNumbers(vpcCidr, existing)| == |FreeNumbers(vpcCidr, existing + [Good(n)])| + 1
  {
    var vpc := vpcCidr.net;
    var num := InsideBlockHasNumber(n, vpc, TARGET_PREFIX - vpc.ones);
    FreeIffNotBlocked(n, vpc, num, existing);
    forall j: nat ensures NumberFree(vpc, j, existing + [Good(n)]) <==> NumberFree(vpc, j, existing) && j != num {
      OneMoreTaken(n, vpc, num, j, existing);
    }
    assert FreeNumbers(vpcCidr, existing) == FreeNumbers(vpcCidr, existing + [Good(n)]) + {num};
  }

  lemma {:induction false} OneMoreTaken(n: Network, vpc: Network, num: nat, j: nat, existing: seq<CidrText>)
    requires vpc.ones <= TARGET_PREFIX && IsBlock(n, vpc, TARGET_PREFIX - vpc.ones, num)
    ensures NumberFree(vpc, j, existing + [Good(n)]) <==> NumberFree(vpc, j, existing) && j != num
  {
    var s := n.Size();
    var more := existing + [Good(n)];
    assert more[|existing|] == Good(n);
    assert forall c :: c in more <==> c in existing || c == Good(n);
    if j == num {
      assert Covers(n, n.Base());
    } else if j < num {
      WindowBefore(j, num, s);
    } else {
      WindowBefore(num, j, s);
    }
  }

  /** Only the entries count, not their order. */
  lemma {:induction false} SameEntriesSameRoom(vpcCidr: CidrText, a: seq<CidrText>, b: seq<CidrText>)
    requires forall c :: c in a <==> c in b
    ensures FreeNumbers(vpcCidr, a) == FreeNumbers(vpcCidr, b)
  {
  }

  /** The inner scan: does an existing entry overlap the candidate or fail to parse? */
  method HasOverlap(candidate: Network, existing: seq<CidrText>) returns (hasOverlap: bool)
    ensures hasOverlap <==> Blocked(candidate, existing)
  {
    for k := 0 to |existing|
      invariant forall c :: c in existing[..k] ==> c.Good? && !Meets(candidate, c.net)
    {
      var overlap := IsSubnetOverlap(Good(candidate), existing[k]);
      if existing[k].Good? {
        OverlapIsExact(candidate, existing[k].net);
      }
      if overlap.Err? || overlap.value {
        assert existing[k] in existing;
        return true;
      }
    }
    assert existing[..|existing|] == existing;
    hasOverlap := false;
  }

  /** First fit of a /24: sound, least and complete. */
  method GenerateSubnet(vpcCidr: CidrText, existing: seq<CidrText>) returns (r: Result<Network, CidrError>)
    ensures vpcCidr.Bad? ==> r == Err(ParseError)
    ensures vpcCidr.Good? && vpcCidr.net.ones > TARGET_PREFIX ==> r == Err(VpcTooSmall)
    // Sound and least.
    ensures r.Ok? ==>
              && vpcCidr.Good?
              && Inside(r.value, vpcCidr.net)
              && r.value.ones == TARGET_PREFIX
              && !Blocked(r.value, existing)
              && forall n: Network :: Inside(n, vpcCidr.net) && n.ones == TARGET_PREFIX && n.Base() < r.value.Base() ==>
                                        Blocked(n, existing)
    // Complete.
    ensures r.Err? && vpcCidr.Good? && vpcCidr.net.ones <= TARGET_PREFIX ==>
              && r.error == NoAvailableSubnet
              && forall n: Network :: Inside(n, vpcCidr.net) && n.ones == TARGET_PREFIX ==> Blocked(n, existing)
    ensures r.Ok? <==> FreeNumbers(vpcCidr, existing) != {}
  {
    if vpcCidr.Bad? {
      return Err(ParseError);
    }
    var vpc := vpcCidr.net;
    if vpc.ones > TARGET_PREFIX {
      return Err(VpcTooSmall);
    }
    var additionalBits := TARGET_PREFIX - vpc.ones;
    SmallPow2(additionalBits);
    var maxSubnets := Pow2(additionalBits);
    var i := 0;
    while i < maxSubnets
      invariant 0 <= i <= maxSubnets
      invariant BlockedBelow(vpc, additionalBits, i, existing)
      invariant forall j: nat :: j < i ==> !NumberFree(vpc, j, existing)
    {
      var sub := SubnetBig(vpc, additionalBits, i);
      var candidate := sub.value;
      var hasOverlap := HasOverlap(candidate, existing);
      FreeIffNotBlocked(candidate, vpc, i, existing);
      if !hasOverlap {
        assert i in FreeNumbers(vpcCidr, existing);
        LowerBlocksBlocked(candidate, vpc, additionalBits, i, existing);
        return Ok(candidate);
      }
      OneMoreBlocked(candidate, vpc, additionalBits, i, existing);
      i := i + 1;
    }
    AllBlocked(vpc, additionalBits, existing);
    r := Err(NoAvailableSubnet);
  }

  // ---------- a fixed number of equal blocks ----------

  /** The least k with 2^k >= n. */
  function CeilLog2(n: nat): (k: nat)
    requires n > 0
    ensures n <= Pow2(k) && (k > 0 ==> Pow2(k - 1) < n)
  {
    if n == 1 then 0 else 1 + CeilLog2((n + 1) / 2)
  }

  method GenerateSubnets(vpcCidr: CidrText, subnetCount: nat) returns (r: Result<seq<Network>, CidrError>)
    requires 0 < subnetCount < 0x8000_0000_0000_0000
    ensures r.Err? <==> vpcCidr.Bad? || vpcCidr.net.ones + CeilLog2(subnetCount) > vpcCidr.net.AddressBits()
    ensures r.Ok? ==>
              && |r.value| == subnetCount
              && (forall i :: 0 <= i < subnetCount ==>
                                && Inside(r.value[i], vpcCidr.net)
                                && r.value[i].ones == vpcCidr.net.ones + CeilLog2(subnetCount)
                                && IsBlock(r.value[i], vpcCidr.net, CeilLog2(subnetCount), i))
              && (forall i, j :: 0 <= i < j < subnetCount ==> !Meets(r.value[i], r.value[j]))
  {
    if vpcCidr.Bad? {
      return Err(ParseError);
    }
    var vpc := vpcCidr.net;
    var requiredBits := CeilLog2(subnetCount);
    if vpc.ones + requiredBits > vpc.AddressBits() {
      return Err(InsufficientSpace);
    }
    var subnets: seq<Network> := [];
    var i := 0;
    while i < subnetCount
      invariant 0 <= i <= subnetCount && |subnets| == i
      invariant forall k :: 0 <= k < i ==> IsBlock(subnets[k], vpc, requiredBits, k) && Inside(subnets[k], vpc)
    {
      var sub := SubnetBig(vpc, requiredBits, i);  // cannot fail: requiredBits fit and number every i
      subnets := subnets + [sub.value];
      i := i + 1;
    }
    forall i, j | 0 <= i < j < subnetCount ensures !Meets(subnets[i], subnets[j]) {
      DifferentBlocksAreApart(subnets[i], subnets[j], vpc, requiredBits, i, j);
    }
    r := Ok(subnets);
  }

  // ---------- cluster, pod and service ranges ----------

  /** What parsing "a.b.0.0/16" gives; an octet above 255 does not parse. */
  function Slash16(a: nat, b: nat): CidrText
    requires a <= 255
  {
    if b <= 255 then
      Slash16Valid(a, b);
      Good(Net([a as byte, b as byte, 0, 0], 16))
    else Bad
  }

  /** What parsing "192.168.c.0/24" gives. */
  function Slash24(c: nat): CidrText {
    if c <= 255 then
      Slash24Valid(c);
      Good(Net([192, 168, c as byte, 0], 24))
    else Bad
  }

  lemma {:induction false} FourBytes(a: byte, b: byte, c: byte, d: byte)
    ensures ToNat([a, b, c, d]) == ((a as nat * 256 + b as nat) * 256 + c as nat) * 256 + d as nat
  {
    assert [a, b, c, d][..3] == [a, b, c];
    assert [a, b, c][..2] == [a, b];
    assert [a, b][..1] == [a];
    assert ToNat([a]) == a as nat;
    assert ToNat([a, b]) == 256 * ToNat([a]) + b as nat;
    assert ToNat([a, b, c]) == 256 * ToNat([a, b]) + c as nat;
  }

  lemma {:induction false} Slash16Valid(a: nat, b: nat)
    requires a <= 255 && b <= 255
    ensures Net([a as byte, b as byte, 0, 0], 16).Valid()
    ensures ToNat([a as byte, b as byte, 0, 0]) / 0x1_0000 == a * 256 + b
  {
    FourBytes(a as byte, b as byte, 0, 0);
    Pow2Sixteen();
    MultipleMod(a * 256 + b, 0x1_0000);
  }

  lemma {:induction false} Slash24Valid(c: nat)
    requires c <= 255
    ensures Net([192, 168, c as byte, 0], 24).Valid()
  {
    FourBytes(192, 168, c as byte, 0);
    assert Pow2(8) == 256;
    MultipleMod((192 * 256 + 168) * 256 + c, 256);
  }

  lemma {:induction false} Slash16Meet(a: nat, b: nat, c: nat, d: nat)
    requires a <= 255 && b <= 255 && c <= 255 && d <= 255
    ensures Meets(Slash16(a, b).net, Slash16(c, d).net) <==> a == c && b == d
  {
    OverlapIsExact(Slash16(a, b).net, Slash16(c, d).net);
    Slash16Valid(a, b);
    Slash16Valid(c, d);
    Pow2Sixteen();
  }

  datatype KubernetesCidrs = KubernetesCidrs(pod: Network, service: Network)

  function GenerateClusterCidr(clusterId: int): Result<CidrText, CidrError> {
    if clusterId <= 0 || clusterId > 255 then Err(InvalidClusterId) else Ok(Slash16(10, clusterId))
  }

  function PodCandidates(clusterId: nat): seq<CidrText> {
    [Slash16(172, clusterId), Slash24(clusterId)]
  }

  function ServiceCandidates(clusterId: nat): seq<CidrText> {
    [Slash16(10, 96 + clusterId), Slash16(10, 160 + clusterId)]
  }

  /** The candidate parses and shares no address with any of the given blocks. */
  ghost predicate Usable(c: CidrText, others: seq<Network>) {
    c.Good? && forall o :: o in others ==> !Meets(c.net, o)
  }

  /** r is the first usable candidate, or none is usable. */
  ghost predicate IsFirstUsable(r: Option<Network>, candidates: seq<CidrText>, others: seq<Network>) {
    match r
    case None => forall k :: 0 <= k < |candidates| ==> !Usable(candidates[k], others)
    case Some(n) => exists k :: 0 <= k < |candidates| && candidates[k] == Good(n) && Usable(candidates[k], others)
                                && forall j :: 0 <= j < k ==> !Usable(candidates[j], others)
  }

  /** The search loop over candidates: the first that parses and overlaps none of the blocks. */
  method FirstUsable(candidates: seq<CidrText>, others: seq<Network>) returns (r: Option<Network>)
    ensures IsFirstUsable(r, candidates, others)
  {
    for k := 0 to |candidates|
      invariant forall j :: 0 <= j < k ==> !Usable(candidates[j], others)
    {
      var candidate := candidates[k];
      if candidate.Good? {
        var hasOverlap := HasOverlap(candidate.net, seq(|others|, i requires 0 <= i < |others| => Good(others[i])));
        ghost var texts := seq(|others|, i requires 0 <= i < |others| => Good(others[i]));
        if !hasOverlap {
          forall o | o in others ensures !Meets(candidate.net, o) {
            var i :| 0 <= i < |others| && others[i] == o;
            assert texts[i] == Good(o) && Good(o) in texts;
          }
          return Some(candidate.net);
        }
      }
    }
    r := None;
  }

  /** What the generator may answer: the first usable ranges, or which search failed. */
  ghost predicate KubernetesOutcome(clusterId: int, vpcCidr: CidrText, r: Result<KubernetesCidrs, CidrError>) {
    if clusterId <= 0 || clusterId > 255 then r == Err(InvalidClusterId)
    else if vpcCidr.Bad? then r == Err(ParseError)
    else
      var vpc := vpcCidr.net;
      match r
      case Ok(v) =>
        && IsFirstUsable(Some(v.pod), PodCandidates(clusterId), [vpc])
        && IsFirstUsable(Some(v.service), ServiceCandidates(clusterId), [vpc, v.pod])
      case Err(NoPodCidr) => IsFirstUsable(None, PodCandidates(clusterId), [vpc])
      case Err(NoServiceCidr) =>
        exists pod :: IsFirstUsable(Some(pod), PodCandidates(clusterId), [vpc])
                      && IsFirstUsable(None, ServiceCandidates(clusterId), [vpc, pod])
      case Err(_) => false
  }

  method GenerateKubernetesCidrs(clusterId: int, vpcCidr: CidrText) returns (r: Result<KubernetesCidrs, CidrError>)
    ensures KubernetesOutcome(clusterId, vpcCidr, r)
  {
    if clusterId <= 0 || clusterId > 255 {
      return Err(InvalidClusterId);
    }
    if vpcCidr.Bad? {
      return Err(ParseError);
    }
    var pod := FirstUsable(PodCandidates(clusterId), [vpcCidr.net]);
    if pod.None? {
      return Err(NoPodCidr);
    }
    var service := FirstUsable(ServiceCandidates(clusterId), [vpcCidr.net, pod.value]);
    if service.None? {
      return Err(NoServiceCidr);
    }
    r := Ok(KubernetesCidrs(pod.value, service.value));
  }

  lemma {:induction false} FirstOneUsable(r: Option<Network>, candidates: seq<CidrText>, others: seq<Network>)
    requires |candidates| > 0 && Usable(candidates[0], others) && IsFirstUsable(r, candidates, others)
    ensures r == Some(candidates[0].net)
  {
  }

  lemma {:induction false} NoneUsable(r: Option<Network>, candidates: seq<CidrText>, others: seq<Network>)
    requires (forall k :: 0 <= k < |candidates| ==> candidates[k].Bad?) && IsFirstUsable(r, candidates, others)
    ensures r.None?
  {
  }

  lemma {:induction false} PodRangeIsFirst(clusterId: nat, pod: Option<Network>)
    requires 0 < clusterId <= 255
    requires IsFirstUsable(pod, PodCandidates(clusterId), [Slash16(10, clusterId).net])
    ensures pod == Some(Slash16(172, clusterId).net)
  {
    Slash16Meet(172, clusterId, 10, clusterId);
    FirstOneUsable(pod, PodCandidates(clusterId), [Slash16(10, clusterId).net]);
  }

  lemma {:induction false} ServiceRange(clusterId: nat, service: Option<Network>)
    requires 0 < clusterId <= 255
    requires IsFirstUsable(service, ServiceCandidates(clusterId), [Slash16(10, clusterId).net, Slash16(172, clusterId).net])
    ensures service == if clusterId <= 159 then Some(Slash16(10, 96 + clusterId).net) else None
  {
    var others := [Slash16(10, clusterId).net, Slash16(172, clusterId).net];
    if clusterId <= 159 {
      Slash16Meet(10, 96 + clusterId, 10, clusterId);
      Slash16Meet(10, 96 + clusterId, 172, clusterId);
      FirstOneUsable(service, ServiceCandidates(clusterId), others);
    } else {
      NoneUsable(service, ServiceCandidates(clusterId), others);
    }
  }

  /** In the cluster's own 10.id.0.0/16 the ranges exist exactly for ids up to 159: above, no service octet fits. */
  lemma {:induction false} KubernetesCidrsExist(clusterId: int, r: Result<KubernetesCidrs, CidrError>)
    requires 0 < clusterId <= 255
    requires KubernetesOutcome(clusterId, Slash16(10, clusterId), r)
    ensures r.Ok? <==> clusterId <= 159
    ensures r.Ok? ==> r.value == KubernetesCidrs(Slash16(172, clusterId).net, Slash16(10, 96 + clusterId).net)
  {
    match r
    case Ok(v) =>
      PodRangeIsFirst(clusterId, Some(v.pod));
      ServiceRange(clusterId, Some(v.service));
    case Err(NoPodCidr) => PodRangeIsFirst(clusterId, None);
    case Err(NoServiceCidr) =>
      var vpc := Slash16(10, clusterId).net;
      var pod :| IsFirstUsable(Some(pod), PodCandidates(clusterId), [vpc])
                 && IsFirstUsable(None, ServiceCandidates(clusterId), [vpc, pod]);
      PodRangeIsFirst(clusterId, Some(pod));
      ServiceRange(clusterId, None);
    case Err(_) =>
  }
}
