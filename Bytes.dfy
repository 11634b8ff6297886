/**
 * Big-endian integers over the octets of a Node `Buffer`: the arithmetic behind
 * `Buffer.readIntBE`, and its inverse, used to build frames.
 */
module Bytes {

  /** One octet of a `Buffer`. */
  newtype byte = x: int | 0 <= x < 256

  /** 256^n: the number of distinct values that n octets can hold. */
  function Pow256(n: nat): (p: nat)
    ensures p >= 1
  {
    if n == 0 then 1 else 256 * Pow256(n - 1)
  }

  /** Half of Pow256(n): the first value whose top bit is set. */
  function HalfRange(n: nat): (h: int)
    requires n > 0
    ensures h > 0 && 2 * h == Pow256(n)
  {
    128 * Pow256(n - 1)
  }

  /** The unsigned value of `bs`, most significant octet first. */
  function UnsignedBE(bs: seq<byte>): (v: nat)
    ensures v < Pow256(|bs|)
  {
    if bs == [] then 0 else UnsignedBE(bs[..|bs| - 1]) * 256 + bs[|bs| - 1] as int
  }

  /**
   * The value of `bs` read as a big-endian two's-complement integer, which is
   * what `readIntBE(offset, |bs|)` returns for the octets it reads.
   */
  function SignedBE(bs: seq<byte>): (v: int)
    requires |bs| > 0
    ensures -HalfRange(|bs|) <= v < HalfRange(|bs|)
    ensures v < 0 <==> UnsignedBE(bs) >= HalfRange(|bs|)
  {
    var u := UnsignedBE(bs);
    if u < HalfRange(|bs|) then u else u - Pow256(|bs|)
  }

  /** The n octets that hold `v` unsigned, most significant first. */
  function EncodeUnsignedBE(v: nat, n: nat): (bs: seq<byte>)
    requires v < Pow256(n)
    ensures |bs| == n
  {
    if n == 0 then [] else EncodeUnsignedBE(v / 256, n - 1) + [(v % 256) as byte]
  }

  /** The n octets that hold `v` in two's complement, most significant first. */
  function EncodeSignedBE(v: int, n: nat): (bs: seq<byte>)
    requires n > 0 && -HalfRange(n) <= v < HalfRange(n)
    ensures |bs| == n
  {
    EncodeUnsignedBE(if v < 0 then v + Pow256(n) else v, n)
  }

  /** Reading back what EncodeUnsignedBE wrote gives the value. */
  lemma {:induction false} UnsignedRoundTrip(v: nat, n: nat)
    requires v < Pow256(n)
    ensures UnsignedBE(EncodeUnsignedBE(v, n)) == v
  {
    if n > 0 {
      var bs := EncodeUnsignedBE(v, n);
      UnsignedRoundTrip(v / 256, n - 1);
      assert bs[..n - 1] == EncodeUnsignedBE(v / 256, n - 1);
    }
  }

  /** Encoding the value of some octets gives those octets back: the reading is one-to-one. */
  lemma {:induction false} UnsignedOctetsRoundTrip(bs: seq<byte>)
    ensures EncodeUnsignedBE(UnsignedBE(bs), |bs|) == bs
  {
    if bs != [] {
      var n := |bs|;
      var front := bs[..n - 1];
      UnsignedOctetsRoundTrip(front);
      var v := UnsignedBE(bs);
      assert v / 256 == UnsignedBE(front);
      assert v % 256 == bs[n - 1] as int;
      assert bs == front + [bs[n - 1]];
    }
  }

  /** Reading back what EncodeSignedBE wrote gives the value. */
  lemma SignedRoundTrip(v: int, n: nat)
    requires n > 0 && -HalfRange(n) <= v < HalfRange(n)
    ensures SignedBE(EncodeSignedBE(v, n)) == v
  {
    UnsignedRoundTrip(if v < 0 then v + Pow256(n) else v, n);
  }

  /** Encoding the signed value of some octets gives those octets back. */
  lemma SignedOctetsRoundTrip(bs: seq<byte>)
    requires |bs| > 0
    ensures EncodeSignedBE(SignedBE(bs), |bs|) == bs
  {
    UnsignedOctetsRoundTrip(bs);
  }

  /** The unsigned value splits at the first octet: it carries the highest weight. */
  lemma {:induction false} UnsignedFront(bs: seq<byte>)
    requires |bs| > 0
    ensures UnsignedBE(bs) == bs[0] as int * Pow256(|bs| - 1) + UnsignedBE(bs[1..])
  {
    var n := |bs|;
    if n > 1 {
      var front := bs[..n - 1];
      UnsignedFront(front);
      assert front[1..] == bs[1..][..n - 2];
      Regroup(bs[0] as int, Pow256(n - 2), UnsignedBE(front[1..]), bs[n - 1] as int);
    }
  }

  /** The arithmetic step of UnsignedFront, kept apart from the sequences. */
  lemma Regroup(a: int, p: int, f: int, last: int)
    ensures (a * p + f) * 256 + last == a * (p * 256) + (f * 256 + last)
  {
  }

  lemma MulMonotone(x: int, y: int, p: nat)
    requires x <= y
    ensures x * p <= y * p
  {
  }

  /** A signed big-endian value is negative exactly when the top bit of its first octet is set. */
  lemma SignFromFirstOctet(bs: seq<byte>)
    requires |bs| > 0
    ensures SignedBE(bs) < 0 <==> bs[0] >= 128
  {
    var n := |bs|;
    var p := Pow256(n - 1);
    UnsignedFront(bs);
    var a := bs[0] as int;
    assert UnsignedBE(bs[1..]) < p;
    assert HalfRange(n) == 128 * p;
    if a >= 128 {
      MulMonotone(128, a, p);
    } else {
      MulMonotone(a, 127, p);
    }
  }
}
