/** net/Endian.h and the integer access of net/Buffer.h: integers of 1, 2, 4 or 8
    bytes in network order, two's complement. */
module Endian {
  import opened Arith
  import opened Seqs

  function Pow256(width: nat): (p: nat)
    ensures p > 0
  {
    if width == 0 then 1 else 256 * Pow256(width - 1)
  }

  /** The values of a signed integer of so many bytes. */
  predicate Fits(x: int, width: nat) {
    width > 0 && -(Pow256(width) / 2) <= x < Pow256(width) / 2
  }

  function EncodeNat(x: nat, width: nat): (bs: seq<byte>)
    ensures |bs| == width
  {
    if width == 0 then [] else EncodeNat(x / 256, width - 1) + [x % 256]
  }

  function DecodeNat(bs: seq<byte>): (x: nat) {
    if bs == [] then 0 else DecodeNat(bs[..|bs| - 1]) * 256 + bs[|bs| - 1]
  }

  function Encode(x: int, width: nat): (bs: seq<byte>)
    requires Fits(x, width)
    ensures |bs| == width
  {
    EncodeNat(if x < 0 then x + Pow256(width) else x, width)
  }

  function Decode(bs: seq<byte>): int {
    var u := DecodeNat(bs);
    if u < Pow256(|bs|) / 2 then u else u - Pow256(|bs|)
  }

  lemma {:induction false} NatRoundTrip(x: nat, width: nat)
    requires x < Pow256(width)
    ensures DecodeNat(EncodeNat(x, width)) == x
    decreases width
  {
    if width > 0 {
      assert x / 256 < Pow256(width - 1);
      NatRoundTrip(x / 256, width - 1);
      var bs := EncodeNat(x, width);
      assert bs[..|bs| - 1] == EncodeNat(x / 256, width - 1);
    }
  }

  lemma {:induction false} BytesRoundTrip(bs: seq<byte>)
    ensures DecodeNat(bs) < Pow256(|bs|)
    ensures EncodeNat(DecodeNat(bs), |bs|) == bs
    decreases |bs|
  {
    if bs != [] {
      var init, last := bs[..|bs| - 1], bs[|bs| - 1];
      BytesRoundTrip(init);
      Quotient(DecodeNat(bs), 256, DecodeNat(init), last);
      assert bs == init + [last];
    }
  }

  lemma DivTwice(x: int, p: nat)
    requires p > 0
    ensures x / 256 / p == x / (256 * p)
  {
    var q := x / 256 / p;
    var r := 256 * (x / 256 % p) + x % 256;
    assert 256 * (x / 256) == 256 * (p * q) + 256 * (x / 256 % p);
    assert 256 * (p * q) == 256 * p * q;
    assert x == 256 * p * q + r;
    Quotient(x, 256 * p, q, r);
  }

  lemma {:induction false} DigitAt(x: nat, width: nat, i: nat)
    requires i < width
    ensures EncodeNat(x, width)[i] == x / Pow256(width - 1 - i) % 256
    decreases width
  {
    if i < width - 1 {
      DigitAt(x / 256, width - 1, i);
      DivTwice(x, Pow256(width - 2 - i));
    }
  }

  lemma {:induction false} PowSplit(a: nat, b: nat)
    ensures Pow256(a + b) == Pow256(a) * Pow256(b)
    decreases a
  {
    if a > 0 {
      PowSplit(a - 1, b);
      assert 256 * (Pow256(a - 1) * Pow256(b)) == 256 * Pow256(a - 1) * Pow256(b);
    }
  }

  /** Adding multiples of the next weight does not change a digit. */
  lemma HigherDigits(x: int, p: nat, q: nat)
    requires p > 0
    ensures (x + 256 * q * p) / p % 256 == x / p % 256
  {
    assert p * (x / p + 256 * q) == p * (x / p) + 256 * q * p;
    Quotient(x + 256 * q * p, p, x / p + 256 * q, x % p);
    Quotient(x / p + 256 * q, 256, x / p / 256 + q, x / p % 256);
  }

  /** The most significant byte first: each byte is the digit of its weight, in two's
      complement. */
  lemma NetworkOrder(x: int, width: nat, i: nat)
    requires Fits(x, width) && i < width
    ensures Encode(x, width)[i] == x / Pow256(width - 1 - i) % 256
  {
    if x < 0 {
      DigitAt(x + Pow256(width), width, i);
      PowSplit(i + 1, width - 1 - i);
      HigherDigits(x, Pow256(width - 1 - i), Pow256(i));
    } else {
      DigitAt(x, width, i);
    }
  }

  /** Reading gives back what was written, for every value of the width. */
  lemma IntRoundTrip(x: int, width: nat)
    requires Fits(x, width)
    ensures Decode(Encode(x, width)) == x
  {
    EvenPow(width);
    NatRoundTrip(if x < 0 then x + Pow256(width) else x, width);
  }

  lemma EvenPow(width: nat)
    requires width > 0
    ensures Pow256(width) / 2 * 2 == Pow256(width)
  {
  }

  /** And writing what was read gives back the same bytes. */
  lemma WireRoundTrip(bs: seq<byte>)
    requires bs != []
    ensures Fits(Decode(bs), |bs|) && Encode(Decode(bs), |bs|) == bs
  {
    EvenPow(|bs|);
    BytesRoundTrip(bs);
  }
}
