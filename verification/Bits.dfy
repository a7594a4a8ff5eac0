/** Powers of two, bitwise or, and big-endian byte strings, as used on IP addresses. */
module Bits {
  import opened Arith

  newtype byte = x: int | 0 <= x < 256

  function Pow2(n: nat): (r: nat)
    ensures r > 0
  {
    if n == 0 then 1 else 2 * Pow2(n - 1)
  }

  lemma {:induction false} Pow2Add(a: nat, b: nat)
    ensures Pow2(a + b) == Pow2(a) * Pow2(b)
  {
    if b == 0 {
    } else {
      Pow2Add(a, b - 1);
    }
  }

  lemma {:induction false} Pow2Monotone(a: nat, b: nat)
    requires a <= b
    ensures Pow2(a) <= Pow2(b)
  {
    if a == b {
    } else {
      Pow2Monotone(a, b - 1);
    }
  }

  lemma {:induction false} Pow2Bytes(k: nat)
    requires k > 0
    ensures Pow2(8 * k) == 256 * Pow2(8 * (k - 1))
  {
    assert Pow2(8) == 256;
    Pow2Add(8 * (k - 1), 8);
  }

  /** Bitwise or of two non-negative integers of any width. */
  function BitOr(a: nat, b: nat): nat
    decreases a + b
  {
    if a == 0 && b == 0 then 0
    else 2 * BitOr(a / 2, b / 2) + (if a % 2 == 1 || b % 2 == 1 then 1 else 0)
  }

  lemma {:induction false} OrZero(a: nat)
    ensures BitOr(a, 0) == a
  {
    if a == 0 {
    } else {
      OrZero(a / 2);
    }
  }

  /** Or-ing a number below 2^k into a multiple of 2^k adds it. */
  lemma {:induction false} OrIsAddition(a: nat, b: nat, k: nat)
    requires a % Pow2(k) == 0
    requires b < Pow2(k)
    ensures BitOr(a, b) == a + b
  {
    if k == 0 {
      OrZero(a);
    } else {
      var q := a / Pow2(k);
      assert a == q * Pow2(k) == 2 * (q * Pow2(k - 1));
      MultipleMod(q, Pow2(k - 1));
      OrIsAddition(a / 2, b / 2, k - 1);
    }
  }

  /** big.Int.SetBytes: the value of a big-endian byte string. */
  function ToNat(bytes: seq<byte>): (n: nat)
    ensures n < Pow2(8 * |bytes|)
  {
    if bytes == [] then 0
    else
      Pow2Bytes(|bytes|);
      256 * ToNat(bytes[..|bytes| - 1]) + bytes[|bytes| - 1] as nat
  }

  /** big.Int.Bytes: the shortest big-endian byte string of a value. */
  function MinimalBytes(n: nat): (bytes: seq<byte>)
    ensures ToNat(bytes) == n
    ensures n == 0 ==> bytes == []
  {
    if n == 0 then []
    else
      var front := MinimalBytes(n / 256);
      var bytes := front + [(n % 256) as byte];
      assert bytes[..|bytes| - 1] == front;
      bytes
  }

  lemma {:induction false} MinimalBytesFit(n: nat, k: nat)
    requires n < Pow2(8 * k)
    ensures |MinimalBytes(n)| <= k
  {
    if n == 0 {
    } else {
      assert k > 0;
      Pow2Bytes(k);
      MinimalBytesFit(n / 256, k - 1);
    }
  }

  lemma {:induction false} ToNatLeadingZeros(zeros: seq<byte>, bytes: seq<byte>)
    requires forall i :: 0 <= i < |zeros| ==> zeros[i] == 0
    ensures ToNat(zeros + bytes) == ToNat(bytes)
  {
    if bytes == [] {
      assert zeros + bytes == zeros;
      if zeros != [] {
        assert zeros[..|zeros| - 1] + [] == zeros[..|zeros| - 1];
        ToNatLeadingZeros(zeros[..|zeros| - 1], []);
      }
    } else {
      var all := zeros + bytes;
      assert all[..|all| - 1] == zeros + bytes[..|bytes| - 1];
      ToNatLeadingZeros(zeros, bytes[..|bytes| - 1]);
    }
  }

  /** Byte strings of one length with one value are one byte string. */
  lemma {:induction false} ToNatInjective(a: seq<byte>, b: seq<byte>)
    requires |a| == |b| && ToNat(a) == ToNat(b)
    ensures a == b
  {
    if a == [] {
    } else {
      var n := |a| - 1;
      DivModUnique(ToNat(a), 256, ToNat(a[..n]), a[n] as nat);
      DivModUnique(ToNat(b), 256, ToNat(b[..n]), b[n] as nat);
      ToNatInjective(a[..n], b[..n]);
      assert a == a[..n] + [a[n]] && b == b[..n] + [b[n]];
    }
  }
}
