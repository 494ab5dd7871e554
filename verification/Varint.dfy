/** Base 128 varints ("Base 128 Varints" in the Protocol Buffers Encoding guide). */
module Varint {
  import opened Prelude

  const MAX_VARINT_BYTES := 10

  function Encode(v: nat): (r: bytes)
    ensures |r| >= 1
  {
    if v < 128 then [v] else [128 + v % 128] + Encode(v / 128)
  }

  /** Read at most `limit` bytes; the value before it is cut to 64 bits, and the bytes used. */
  function DecodeRaw(b: bytes, limit: nat): (r: Option<(nat, nat)>)
    ensures r.Some? ==> 1 <= r.value.1 <= |b| && r.value.1 <= limit
  {
    if limit == 0 || b == [] then None
    else if b[0] < 128 then Some((b[0], 1))
    else match DecodeRaw(b[1..], limit - 1)
      case None => None
      case Some((v, n)) => Some((b[0] - 128 + 128 * v, n + 1))
  }

  /** A varint field value: ten bytes at most, the bits past 64 dropped. */
  function Decode(b: bytes): (r: Option<(uint64, nat)>)
    ensures r.Some? ==> 1 <= r.value.1 <= |b|
  {
    match DecodeRaw(b, MAX_VARINT_BYTES)
    case None => None
    case Some((v, n)) => Some((v % 0x1_0000_0000_0000_0000, n))
  }

  function BitLength(v: nat): nat {
    if v == 0 then 0 else 1 + BitLength(v / 2)
  }

  /** The size of a varint computed from the bit length, without encoding it. */
  function Bytes(v: nat): nat {
    Max(1, (BitLength(v) + 6) / 7)
  }

  lemma {:induction false} BitLengthShift(v: nat)
    requires v >= 128
    ensures BitLength(v) == 7 + BitLength(v / 128)
  {
    var v1 := v / 2;
    var v2 := v1 / 2;
    var v3 := v2 / 2;
    var v4 := v3 / 2;
    var v5 := v4 / 2;
    var v6 := v5 / 2;
    var v7 := v6 / 2;
    assert v7 == v / 128;
    assert v6 >= 1;
    calc {
      BitLength(v);
      1 + BitLength(v1);
      2 + BitLength(v2);
      3 + BitLength(v3);
      4 + BitLength(v4);
      5 + BitLength(v5);
      6 + BitLength(v6);
      7 + BitLength(v7);
    }
  }

  lemma {:induction false} BitLengthSmall(v: nat)
    requires v < 128
    ensures BitLength(v) <= 7
  {
    var v1 := v / 2;
    var v2 := v1 / 2;
    var v3 := v2 / 2;
    var v4 := v3 / 2;
    var v5 := v4 / 2;
    var v6 := v5 / 2;
    assert v6 / 2 == 0;
    assert BitLength(v6) <= 1;
    assert BitLength(v5) <= 2;
    assert BitLength(v4) <= 3;
    assert BitLength(v3) <= 4;
    assert BitLength(v2) <= 5;
    assert BitLength(v1) <= 6;
  }

  /** The size formula is exact. */
  lemma {:induction false} BytesExact(v: nat)
    ensures Bytes(v) == |Encode(v)|
  {
    if v < 128 {
      BitLengthSmall(v);
    } else {
      BytesExact(v / 128);
      BitLengthShift(v);
      if v / 128 < 128 {
        BitLengthSmall(v / 128);
      }
    }
  }

  lemma {:induction false} LengthMonotone(a: nat, b: nat)
    requires a <= b
    ensures |Encode(a)| <= |Encode(b)|
  {
    if b >= 128 && a >= 128 {
      LengthMonotone(a / 128, b / 128);
    }
  }

  lemma LengthBound(v: uint64)
    ensures |Encode(v)| <= MAX_VARINT_BYTES
  {
    var m := 0xFFFF_FFFF_FFFF_FFFF;
    LengthMonotone(v, m);
    assert |Encode(m)| == 10 by {
      var m1 := m / 128;
      var m2 := m1 / 128;
      var m3 := m2 / 128;
      var m4 := m3 / 128;
      var m5 := m4 / 128;
      var m6 := m5 / 128;
      var m7 := m6 / 128;
      var m8 := m7 / 128;
      var m9 := m8 / 128;
      assert |Encode(m9)| == 1;
      assert |Encode(m8)| == 2;
      assert |Encode(m7)| == 3;
      assert |Encode(m6)| == 4;
      assert |Encode(m5)| == 5;
      assert |Encode(m4)| == 6;
      assert |Encode(m3)| == 7;
      assert |Encode(m2)| == 8;
      assert |Encode(m1)| == 9;
    }
  }

  lemma {:induction false} RawRoundTrip(v: nat, rest: bytes, limit: nat)
    requires |Encode(v)| <= limit
    ensures DecodeRaw(Encode(v) + rest, limit) == Some((v, |Encode(v)|))
  {
    var b := Encode(v) + rest;
    if v >= 128 {
      RawRoundTrip(v / 128, rest, limit - 1);
      assert b[1..] == Encode(v / 128) + rest;
    }
  }

  lemma {:induction false} RawTruncated(v: nat, k: nat, limit: nat)
    requires k < |Encode(v)|
    ensures DecodeRaw(Encode(v)[..k], limit) == None
  {
    if v >= 128 && k > 0 && limit > 0 {
      RawTruncated(v / 128, k - 1, limit - 1);
      assert Encode(v)[..k][1..] == Encode(v / 128)[..k - 1];
    }
  }

  /** Decoding undoes encoding, whatever bytes follow. */
  lemma RoundTrip(v: uint64, rest: bytes)
    ensures Decode(Encode(v) + rest) == Some((v, |Encode(v)|))
  {
    LengthBound(v);
    RawRoundTrip(v, rest, MAX_VARINT_BYTES);
  }

  /** No proper prefix of a varint decodes. */
  lemma Truncated(v: nat, k: nat)
    requires k < |Encode(v)|
    ensures Decode(Encode(v)[..k]) == None
  {
    RawTruncated(v, k, MAX_VARINT_BYTES);
  }
}
