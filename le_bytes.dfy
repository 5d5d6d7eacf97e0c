/**
 * The byte form of the virtual machine's I/O channels: every value travels as
 * the eight little-endian bytes of a two's-complement `i64` (`i64::to_le_bytes`,
 * `i64::from_le_bytes`), and a sequence of values as the concatenation of
 * their records (`ints_to_bytes`).
 */
module LeBytes {
  import opened Text

  type Byte = x: int | 0 <= x < 256

  /** 2 to the 64th: the number of `u64` values. */
  const WORD: int := 0x1_0000_0000_0000_0000

  function Pow256(n: nat): (p: nat)
    ensures p > 0
  {
    if n == 0 then 1 else 256 * Pow256(n - 1)
  }

  /** The `n` base-256 digits of `u`, least significant first. */
  function UnsignedLe(u: nat, n: nat): (bs: seq<Byte>)
    ensures |bs| == n
  {
    if n == 0 then [] else [u % 256] + UnsignedLe(u / 256, n - 1)
  }

  /** The number whose base-256 digits, least significant first, are `bs`. */
  function UnsignedValue(bs: seq<Byte>): nat
  {
    if |bs| == 0 then 0 else bs[0] + 256 * UnsignedValue(bs[1..])
  }

  lemma {:induction false} UnsignedValueBound(bs: seq<Byte>)
    ensures UnsignedValue(bs) < Pow256(|bs|)
  {
    if |bs| > 0 {
      UnsignedValueBound(bs[1..]);
      var v := UnsignedValue(bs[1..]);
      assert v + 1 <= Pow256(|bs| - 1);
      assert 256 * (v + 1) <= 256 * Pow256(|bs| - 1);
    }
  }

  lemma {:induction false} UnsignedRoundTrip(u: nat, n: nat)
    requires u < Pow256(n)
    ensures UnsignedValue(UnsignedLe(u, n)) == u
  {
    if n > 0 {
      var q := u / 256;
      assert u == 256 * q + u % 256;
      assert q < Pow256(n - 1);
      UnsignedRoundTrip(q, n - 1);
      var bs := UnsignedLe(u, n);
      assert bs[1..] == UnsignedLe(q, n - 1);
    }
  }

  lemma {:induction false} UnsignedLeOfValue(bs: seq<Byte>)
    ensures UnsignedLe(UnsignedValue(bs), |bs|) == bs
  {
    if |bs| > 0 {
      var v := UnsignedValue(bs[1..]);
      var u := bs[0] + 256 * v;
      assert u % 256 == bs[0] && u / 256 == v;
      UnsignedLeOfValue(bs[1..]);
      assert bs == [bs[0]] + bs[1..];
    }
  }

  lemma Pow256Of8()
    ensures Pow256(8) == WORD
  {
  }

  /** `i64::to_le_bytes`: the two's-complement word of `x`, low byte first. */
  function ToLeBytes(x: int): (bs: seq<Byte>)
    requires IsI64(x)
    ensures |bs| == 8
  {
    UnsignedLe(x % WORD, 8)
  }

  /** `i64::from_le_bytes`: the signed value of eight little-endian bytes. */
  function FromLeBytes(bs: seq<Byte>): (x: int)
    requires |bs| == 8
    ensures IsI64(x)
  {
    UnsignedValueBound(bs);
    Pow256Of8();
    var u := UnsignedValue(bs);
    if u <= I64_MAX then u else u - WORD
  }

  /** Every `i64` is read back from its record. */
  lemma LeRoundTrip(x: int)
    requires IsI64(x)
    ensures FromLeBytes(ToLeBytes(x)) == x
  {
    Pow256Of8();
    UnsignedRoundTrip(x % WORD, 8);
  }

  /** Every eight bytes are the record of the value they are read as. */
  lemma LeRoundTripBytes(bs: seq<Byte>)
    requires |bs| == 8
    ensures ToLeBytes(FromLeBytes(bs)) == bs
  {
    Pow256Of8();
    UnsignedValueBound(bs);
    UnsignedLeOfValue(bs);
  }

  predicate AllI64(xs: seq<int>) { forall i :: 0 <= i < |xs| ==> IsI64(xs[i]) }

  /** `ints_to_bytes`: the records of the values, in order. */
  function IntsToBytes(xs: seq<int>): (bs: seq<Byte>)
    requires AllI64(xs)
    ensures |bs| == 8 * |xs|
  {
    if |xs| == 0 then [] else ToLeBytes(xs[0]) + IntsToBytes(xs[1..])
  }

  /** Record `k` of `ints_to_bytes(xs)` reads back as `xs[k]`. */
  lemma {:induction false} IntsToBytesRecord(xs: seq<int>, k: nat)
    requires AllI64(xs) && k < |xs|
    ensures IntsToBytes(xs)[8 * k..8 * k + 8] == ToLeBytes(xs[k])
    ensures FromLeBytes(IntsToBytes(xs)[8 * k..8 * k + 8]) == xs[k]
  {
    var bs := IntsToBytes(xs);
    if k == 0 {
      assert bs[..8] == ToLeBytes(xs[0]);
    } else {
      IntsToBytesRecord(xs[1..], k - 1);
      assert bs[8 * k..8 * k + 8] == IntsToBytes(xs[1..])[8 * (k - 1)..8 * (k - 1) + 8];
    }
    LeRoundTrip(xs[k]);
  }
}
