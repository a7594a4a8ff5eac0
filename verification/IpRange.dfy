/** IPv4 dotted quads as 32-bit numbers, and the list of addresses of a range. */
module IpRange {
  import opened Text
  import opened Arith

  const TWO_TO_THE_32: nat := 0x1_0000_0000
  const MAX_UINT32: nat := 0xFFFF_FFFF

  type uint32 = x: nat | x < TWO_TO_THE_32

  function Wrap32(x: int): uint32 { x % TWO_TO_THE_32 }

  function Octet(piece: string, weight: nat): uint32 {
    Wrap32(Wrap32(Atoi(piece)) * weight)
  }

  /** Anything but four dot-separated pieces is 0; a piece that is no numeral counts as 0. */
  function Ip4ToUint32(ip: string): uint32 {
    var bits := Split(ip, '.');
    if |bits| != 4 then 0
    else Wrap32(Octet(bits[0], 0x100_0000) + Octet(bits[1], 0x1_0000) + Octet(bits[2], 0x100) + Octet(bits[3], 1))
  }

  function Dotted(b0: nat, b1: nat, b2: nat, b3: nat): string {
    Numeral(b0) + "." + (Numeral(b1) + "." + (Numeral(b2) + "." + Numeral(b3)))
  }

  function Uint32ToIp4(n: uint32): string {
    Dotted(n / 0x100_0000 % 256, n / 0x1_0000 % 256, n / 0x100 % 256, n % 256)
  }

  /** Four plain decimal octets. */
  ghost predicate Canonical(ip: string) {
    exists b0: nat, b1: nat, b2: nat, b3: nat ::
      b0 < 256 && b1 < 256 && b2 < 256 && b3 < 256 && ip == Dotted(b0, b1, b2, b3)
  }

  lemma {:induction false} OctetOfNumeral(b: nat, weight: nat)
    requires b < 256 && weight <= 0x100_0000
    ensures Octet(Numeral(b), weight) == b * weight
  {
    AtoiOfNumeral(b);
    MulMonotone(b, 255, weight);
    MulMonotone(0, b, weight);
  }

  lemma {:induction false} DottedSplits(b0: nat, b1: nat, b2: nat, b3: nat)
    ensures Split(Dotted(b0, b1, b2, b3), '.') == [Numeral(b0), Numeral(b1), Numeral(b2), Numeral(b3)]
  {
    SplitPrefix(Numeral(b3), "", '.');
    SplitPrefix(Numeral(b2), Numeral(b3), '.');
    SplitPrefix(Numeral(b1), Numeral(b2) + "." + Numeral(b3), '.');
    SplitPrefix(Numeral(b0), Numeral(b1) + "." + (Numeral(b2) + "." + Numeral(b3)), '.');
  }

  lemma {:induction false} ValueOfFour(bits: seq<string>, ip: string)
    requires |bits| == 4 && Split(ip, '.') == bits
    ensures Ip4ToUint32(ip)
            == Wrap32(Octet(bits[0], 0x100_0000) + Octet(bits[1], 0x1_0000) + Octet(bits[2], 0x100) + Octet(bits[3], 1))
  {
  }

  lemma {:induction false} ValueOfDotted(b0: nat, b1: nat, b2: nat, b3: nat)
    requires b0 < 256 && b1 < 256 && b2 < 256 && b3 < 256
    ensures Ip4ToUint32(Dotted(b0, b1, b2, b3)) == b0 * 0x100_0000 + b1 * 0x1_0000 + b2 * 0x100 + b3
  {
    DottedSplits(b0, b1, b2, b3);
    ValueOfFour([Numeral(b0), Numeral(b1), Numeral(b2), Numeral(b3)], Dotted(b0, b1, b2, b3));
    OctetOfNumeral(b0, 0x100_0000);
    OctetOfNumeral(b1, 0x1_0000);
    OctetOfNumeral(b2, 0x100);
    OctetOfNumeral(b3, 1);
  }

  lemma {:induction false} NumberOfDigits(n: uint32)
    ensures n == (n / 0x100_0000 % 256) * 0x100_0000 + (n / 0x1_0000 % 256) * 0x1_0000 + (n / 0x100 % 256) * 0x100 + n % 256
  {
    assert n / 0x1_0000 == n / 0x100 / 0x100;
    assert n / 0x100_0000 == n / 0x1_0000 / 0x100;
  }

  lemma {:induction false} DigitsOfNumber(b0: nat, b1: nat, b2: nat, b3: nat)
    requires b0 < 256 && b1 < 256 && b2 < 256 && b3 < 256
    ensures var n := b0 * 0x100_0000 + b1 * 0x1_0000 + b2 * 0x100 + b3;
            n < TWO_TO_THE_32 && n / 0x100_0000 % 256 == b0 && n / 0x1_0000 % 256 == b1 && n / 0x100 % 256 == b2 && n % 256 == b3
  {
    var n := b0 * 0x100_0000 + b1 * 0x1_0000 + b2 * 0x100 + b3;
    DivModUnique(n, 0x100, b0 * 0x1_0000 + b1 * 0x100 + b2, b3);
    DivModUnique(n, 0x1_0000, b0 * 0x100 + b1, b2 * 0x100 + b3);
    DivModUnique(n, 0x100_0000, b0, b1 * 0x1_0000 + b2 * 0x100 + b3);
  }

  /** From number to text and back is the identity. */
  lemma {:induction false} NumberRoundTrip(n: uint32)
    ensures Ip4ToUint32(Uint32ToIp4(n)) == n
  {
    var b0, b1, b2, b3 := n / 0x100_0000 % 256, n / 0x1_0000 % 256, n / 0x100 % 256, n % 256;
    NumberOfDigits(n);
    ValueOfDotted(b0, b1, b2, b3);
  }

  lemma {:induction false} CanonicalRoundTrip(b0: nat, b1: nat, b2: nat, b3: nat)
    requires b0 < 256 && b1 < 256 && b2 < 256 && b3 < 256
    ensures Uint32ToIp4(Ip4ToUint32(Dotted(b0, b1, b2, b3))) == Dotted(b0, b1, b2, b3)
  {
    ValueOfDotted(b0, b1, b2, b3);
    DigitsOfNumber(b0, b1, b2, b3);
  }

  lemma {:induction false} TextIsCanonical(n: uint32)
    ensures Canonical(Uint32ToIp4(n))
  {
  }

  /** From text to number and back is the identity exactly on canonical addresses. */
  lemma {:induction false} TextRoundTrip(ip: string)
    ensures Uint32ToIp4(Ip4ToUint32(ip)) == ip <==> Canonical(ip)
  {
    TextIsCanonical(Ip4ToUint32(ip));
    if Canonical(ip) {
      var b0: nat, b1: nat, b2: nat, b3: nat :|
        b0 < 256 && b1 < 256 && b2 < 256 && b3 < 256 && ip == Dotted(b0, b1, b2, b3);
      CanonicalRoundTrip(b0, b1, b2, b3);
    }
  }

  /** The addresses from start to end. */
  function RangeOf(start: uint32, end: int): (ips: seq<string>)
    requires start - 1 <= end < TWO_TO_THE_32
    ensures |ips| == end - start + 1
    ensures forall i :: 0 <= i < |ips| ==> ips[i] == Uint32ToIp4(start + i)
  {
    if end < start then [] else RangeOf(start, end - 1) + [Uint32ToIp4(end)]
  }

  lemma {:induction false} RangeStep(start: uint32, i: uint32, next: int)
    requires start <= i < MAX_UINT32 && next == i + 1
    ensures RangeOf(start, next - 1) == RangeOf(start, i - 1) + [Uint32ToIp4(i)]
  {
  }

  /** The counting loop; its counter is a uint32, so an end of 2^32 - 1 would wrap it to 0. */
  method CountUp(start: uint32, end: uint32) returns (result: seq<string>)
    requires start <= end < MAX_UINT32
    ensures result == RangeOf(start, end)
  {
    result := [];
    var i: uint32 := start;
    while i <= end
      invariant start <= i <= end + 1
      invariant result == RangeOf(start, i - 1)
    {
      RangeStep(start, i, Wrap32(i + 1));
      result := result + [Uint32ToIp4(i)];
      i := Wrap32(i + 1);
    }
  }

  /** The addresses from one address text to another. */
  function Listed(startIp: string, endIp: string): seq<string> {
    var start, end := Ip4ToUint32(startIp), Ip4ToUint32(endIp);
    if start > end then [] else RangeOf(start, end)
  }

  /** With an end of 255.255.255.255 the source never returns; the precondition leaves that to the caller. */
  method RangeIps(startIp: string, endIp: string) returns (result: seq<string>)
    requires Ip4ToUint32(endIp) < MAX_UINT32
    ensures result == Listed(startIp, endIp)
  {
    var start, end := Ip4ToUint32(startIp), Ip4ToUint32(endIp);
    if start > end {
      return [];
    }
    result := CountUp(start, end);
  }

  lemma {:induction false} TextOfNumber(n: uint32, ip: string)
    requires ip == Uint32ToIp4(n)
    ensures Ip4ToUint32(ip) == n && Canonical(ip)
  {
    NumberRoundTrip(n);
    TextIsCanonical(n);
  }

  predicate InRange(start: uint32, end: uint32, ip: string) {
    start <= Ip4ToUint32(ip) <= end
  }

  lemma {:induction false} RangeElement(start: uint32, end: uint32, i: nat)
    requires start <= end && i <= end - start
    ensures var ip := RangeOf(start, end)[i]; Canonical(ip) && Ip4ToUint32(ip) == start + i
  {
    TextOfNumber(start + i, RangeOf(start, end)[i]);
  }

  lemma {:induction false} ListedIsInRange(startIp: string, endIp: string, i: nat)
    requires i < |Listed(startIp, endIp)|
    ensures var ip, start := Listed(startIp, endIp)[i], Ip4ToUint32(startIp);
            Canonical(ip) && Ip4ToUint32(ip) == start + i && InRange(start, Ip4ToUint32(endIp), ip)
  {
    RangeElement(Ip4ToUint32(startIp), Ip4ToUint32(endIp), i);
  }

  lemma {:induction false} RangeHolds(start: uint32, end: uint32, n: uint32)
    requires start <= n <= end
    ensures Uint32ToIp4(n) in RangeOf(start, end)
  {
    assert RangeOf(start, end)[n - start] == Uint32ToIp4(n);
  }

  lemma {:induction false} InRangeIsListed(startIp: string, endIp: string, ip: string)
    requires Canonical(ip) && InRange(Ip4ToUint32(startIp), Ip4ToUint32(endIp), ip)
    ensures ip in Listed(startIp, endIp)
  {
    TextRoundTrip(ip);
    RangeHolds(Ip4ToUint32(startIp), Ip4ToUint32(endIp), Ip4ToUint32(ip));
  }

  /** An address is listed exactly when it is canonical and its number is in the range; each is listed once, in order of number. */
  lemma {:induction false} RangeListsEachOnce(startIp: string, endIp: string)
    ensures forall ip :: ip in Listed(startIp, endIp) <==> Canonical(ip) && InRange(Ip4ToUint32(startIp), Ip4ToUint32(endIp), ip)
    ensures forall i, j :: 0 <= i < j < |Listed(startIp, endIp)| ==>
                             Ip4ToUint32(Listed(startIp, endIp)[i]) < Ip4ToUint32(Listed(startIp, endIp)[j])
  {
    var ips := Listed(startIp, endIp);
    forall ip | ip in ips ensures Canonical(ip) && InRange(Ip4ToUint32(startIp), Ip4ToUint32(endIp), ip) {
      var i :| 0 <= i < |ips| && ips[i] == ip;
      ListedIsInRange(startIp, endIp, i);
    }
    forall ip | Canonical(ip) && InRange(Ip4ToUint32(startIp), Ip4ToUint32(endIp), ip) ensures ip in ips {
      InRangeIsListed(startIp, endIp, ip);
    }
    forall i, j | 0 <= i < j < |ips| ensures Ip4ToUint32(ips[i]) < Ip4ToUint32(ips[j]) {
      ListedIsInRange(startIp, endIp, i);
      ListedIsInRange(startIp, endIp, j);
    }
  }
}
