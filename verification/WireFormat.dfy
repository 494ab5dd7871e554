/**
 The Protocol Buffers wire format as byte-sequence functions: records of a tag and a value
 ("Message Structure", "Length-Delimited Records" and "Groups" in the Encoding guide).
 A message is first split into its records; Messages.dfy then gives them their meaning.
 */
module WireFormat {
  import opened Prelude
  import Varint

  const WIRE_VARINT := 0
  const WIRE_I64 := 1
  const WIRE_LEN := 2
  const WIRE_START_GROUP := 3
  const WIRE_END_GROUP := 4
  const WIRE_I32 := 5

  const MAX_TAG_BYTES := 5

  /** One record. The last three kinds are only ever skipped by this schema. */
  datatype Field =
    | VarintField(num: nat, value: uint64)
    | LenField(num: nat, payload: bytes)
    | I64Field(num: nat)
    | I32Field(num: nat)
    | GroupField(num: nat)

  // ---------------------------------------------------------------- writing

  function EncodeTag(num: nat, wireType: nat): (r: bytes)
    ensures |r| >= 1
  {
    Varint.Encode(num * 8 + wireType)
  }

  /** The records this schema writes: varints and length-delimited values. */
  type Written = f: Field | f.VarintField? || f.LenField? witness VarintField(1, 0)

  /** Within the ranges of the format: a 29-bit field number, a 64-bit length. */
  predicate Writable(f: Written) {
    && 1 <= f.num < 0x1000_0000
    && (f.LenField? ==> |f.payload| < 0x1_0000_0000_0000_0000)
  }

  predicate AllWritable(fs: seq<Written>) {
    forall i :: 0 <= i < |fs| ==> Writable(fs[i])
  }

  function EncodeField(f: Written): (r: bytes)
    ensures |r| >= 2
  {
    match f
    case VarintField(num, value) => EncodeTag(num, WIRE_VARINT) + Varint.Encode(value)
    case LenField(num, payload) => EncodeTag(num, WIRE_LEN) + Varint.Encode(|payload|) + payload
  }

  function EncodeFields(fs: seq<Written>): bytes {
    if fs == [] then [] else EncodeField(fs[0]) + EncodeFields(fs[1..])
  }

  lemma {:induction false} EncodeFieldsAppend(a: seq<Written>, b: seq<Written>)
    ensures EncodeFields(a + b) == EncodeFields(a) + EncodeFields(b)
  {
    if a == [] {
      assert a + b == b;
    } else {
      assert (a + b)[1..] == a[1..] + b;
      EncodeFieldsAppend(a[1..], b);
    }
  }

  lemma EncodeFieldsOne(f: Written)
    ensures EncodeFields([f]) == EncodeField(f)
  {
    assert EncodeFields([f][1..]) == [];
  }

  // ---------------------------------------------------------------- reading

  /** Field number, wire type and bytes used. Field number 0 and tags over 32 bits are malformed. */
  function DecodeTag(b: bytes): (r: Option<(nat, nat, nat)>)
    ensures r.Some? ==> 1 <= r.value.2 <= |b| && r.value.0 >= 1 && r.value.1 < 8
  {
    match Varint.DecodeRaw(b, MAX_TAG_BYTES)
    case None => None
    case Some((v, n)) =>
      if v >= 0x1_0000_0000 || v / 8 == 0 then None else Some((v / 8, v % 8, n))
  }

  /** The first record of `b` and the bytes it takes. */
  function ParseField(b: bytes): (r: Option<(Field, nat)>)
    ensures r.Some? ==> 1 <= r.value.1 <= |b|
    decreases |b|, 0
  {
    match DecodeTag(b)
    case None => None
    case Some((num, wireType, n)) =>
      var rest := b[n..];
      if wireType == WIRE_VARINT then
        match Varint.Decode(rest) {
          case None => None
          case Some((v, k)) => Some((VarintField(num, v), n + k))
        }
      else if wireType == WIRE_LEN then
        match Varint.Decode(rest) {
          case None => None
          case Some((len, k)) =>
            if len <= |rest| - k then Some((LenField(num, rest[k..k + len]), n + k + len)) else None
        }
      else if wireType == WIRE_I64 then
        if 8 <= |rest| then Some((I64Field(num), n + 8)) else None
      else if wireType == WIRE_I32 then
        if 4 <= |rest| then Some((I32Field(num), n + 4)) else None
      else if wireType == WIRE_START_GROUP then
        match SkipGroup(rest, num) {
          case None => None
          case Some(k) => Some((GroupField(num), n + k))
        }
      else
        None
  }

  /** The bytes up to and including the end tag of group `num`. */
  function SkipGroup(b: bytes, num: nat): (r: Option<nat>)
    ensures r.Some? ==> r.value <= |b|
    decreases |b|, 1
  {
    match DecodeTag(b)
    case None => None
    case Some((n, wireType, used)) =>
      if wireType == WIRE_END_GROUP then
        if n == num then Some(used) else None
      else
        match ParseField(b)
        case None => None
        case Some((_, k)) =>
          match SkipGroup(b[k..], num)
          case None => None
          case Some(m) => Some(k + m)
  }

  /** Every record of a message, or None when the bytes are not a record sequence. */
  function ParseFields(b: bytes): (r: Option<seq<Field>>)
    decreases |b|
  {
    if b == [] then Some([])
    else match ParseField(b)
      case None => None
      case Some((f, n)) =>
        match ParseFields(b[n..])
        case None => None
        case Some(fs) => Some([f] + fs)
  }

  // ------------------------------------------------------------- round trip

  /** Writing the wire type into a tag never changes its size. */
  lemma TagLength(num: nat, wireType: nat)
    requires 1 <= num < 16 && wireType < 8
    ensures |EncodeTag(num, wireType)| == 1
  {
    assert num * 8 + wireType < 128;
  }

  lemma TagBound(num: nat, wireType: nat)
    requires 1 <= num < 0x1000_0000 && wireType < 8
    ensures |EncodeTag(num, wireType)| <= MAX_TAG_BYTES
  {
    var m := 0x7FFF_FFFF;
    Varint.LengthMonotone(num * 8 + wireType, m);
    assert |Varint.Encode(m)| == 5 by {
      var m1 := m / 128;
      var m2 := m1 / 128;
      var m3 := m2 / 128;
      var m4 := m3 / 128;
      assert |Varint.Encode(m4)| == 1;
      assert |Varint.Encode(m3)| == 2;
      assert |Varint.Encode(m2)| == 3;
      assert |Varint.Encode(m1)| == 4;
    }
  }

  lemma TagRoundTrip(num: nat, wireType: nat, rest: bytes)
    requires 1 <= num < 0x1000_0000 && wireType < 8
    ensures DecodeTag(EncodeTag(num, wireType) + rest) == Some((num, wireType, |EncodeTag(num, wireType)|))
  {
    var v := num * 8 + wireType;
    TagBound(num, wireType);
    Varint.RawRoundTrip(v, rest, MAX_TAG_BYTES);
    assert v / 8 == num && v % 8 == wireType;
  }

  lemma VarintFieldRoundTrip(num: nat, value: uint64, rest: bytes)
    requires 1 <= num < 0x1000_0000
    ensures var f := VarintField(num, value);
            ParseField(EncodeField(f) + rest) == Some((f, |EncodeField(f)|))
  {
    var tag := EncodeTag(num, WIRE_VARINT);
    var tail := Varint.Encode(value) + rest;
    var b := EncodeField(VarintField(num, value)) + rest;
    assert b == tag + tail;
    TagRoundTrip(num, WIRE_VARINT, tail);
    assert b[|tag|..] == tail;
    Varint.RoundTrip(value, rest);
  }

  lemma LenFieldRoundTrip(num: nat, payload: bytes, rest: bytes)
    requires 1 <= num < 0x1000_0000 && |payload| < 0x1_0000_0000_0000_0000
    ensures var f := LenField(num, payload);
            ParseField(EncodeField(f) + rest) == Some((f, |EncodeField(f)|))
  {
    var tag, len := EncodeTag(num, WIRE_LEN), Varint.Encode(|payload|);
    var tail := len + (payload + rest);
    var b := EncodeField(LenField(num, payload)) + rest;
    assert b == tag + tail;
    TagRoundTrip(num, WIRE_LEN, tail);
    assert b[|tag|..] == tail;
    Varint.RoundTrip(|payload|, payload + rest);
    assert tail[|len|..|len| + |payload|] == payload;
  }

  lemma FieldRoundTrip(f: Written, rest: bytes)
    requires Writable(f)
    ensures ParseField(EncodeField(f) + rest) == Some((f, |EncodeField(f)|))
  {
    match f
    case VarintField(num, value) => VarintFieldRoundTrip(num, value, rest);
    case LenField(num, payload) => LenFieldRoundTrip(num, payload, rest);
  }

  /** Parsing takes off the first record whole. */
  lemma ParseFieldsCons(f: Written, tail: bytes)
    requires Writable(f)
    ensures ParseFields(EncodeField(f) + tail)
         == match ParseFields(tail) case None => None case Some(fs) => Some([f] + fs)
  {
    FieldRoundTrip(f, tail);
    assert (EncodeField(f) + tail)[|EncodeField(f)|..] == tail;
  }

  /** A message's records are read back exactly. */
  lemma {:induction false} FieldsRoundTrip(fs: seq<Written>)
    requires AllWritable(fs)
    ensures ParseFields(EncodeFields(fs)) == Some(fs)
  {
    hide ParseField;
    if fs != [] {
      ParseFieldsCons(fs[0], EncodeFields(fs[1..]));
      FieldsRoundTrip(fs[1..]);
      assert [fs[0]] + fs[1..] == fs;
    }
  }

  // ------------------------------------------------------------- truncation

  lemma TagTruncated(num: nat, wireType: nat, k: nat)
    requires k < |EncodeTag(num, wireType)|
    ensures DecodeTag(EncodeTag(num, wireType)[..k]) == None
  {
    Varint.RawTruncated(num * 8 + wireType, k, MAX_TAG_BYTES);
  }

  lemma VarintFieldTruncated(num: nat, value: uint64, k: nat)
    requires 1 <= num < 0x1000_0000
    requires |EncodeTag(num, WIRE_VARINT)| <= k < |EncodeField(VarintField(num, value))|
    ensures ParseField(EncodeField(VarintField(num, value))[..k]) == None
  {
    var tag := EncodeTag(num, WIRE_VARINT);
    var rest := Varint.Encode(value)[..k - |tag|];
    assert EncodeField(VarintField(num, value))[..k] == tag + rest;
    TagRoundTrip(num, WIRE_VARINT, rest);
    assert (tag + rest)[|tag|..] == rest;
    Varint.Truncated(value, |rest|);
  }

  lemma LenFieldTruncated(num: nat, payload: bytes, k: nat)
    requires 1 <= num < 0x1000_0000 && |payload| < 0x1_0000_0000_0000_0000
    requires |EncodeTag(num, WIRE_LEN)| <= k < |EncodeField(LenField(num, payload))|
    ensures ParseField(EncodeField(LenField(num, payload))[..k]) == None
  {
    var tag, len := EncodeTag(num, WIRE_LEN), Varint.Encode(|payload|);
    var rest := (len + payload)[..k - |tag|];
    assert EncodeField(LenField(num, payload))[..k] == tag + rest;
    TagRoundTrip(num, WIRE_LEN, rest);
    assert (tag + rest)[|tag|..] == rest;
    if |rest| < |len| {
      assert rest == len[..|rest|];
      Varint.Truncated(|payload|, |rest|);
    } else {
      assert rest == len + rest[|len|..];
      Varint.RoundTrip(|payload|, rest[|len|..]);
    }
  }

  /** No proper prefix of one record is a record. */
  lemma FieldTruncated(f: Written, k: nat)
    requires Writable(f) && k < |EncodeField(f)|
    ensures ParseField(EncodeField(f)[..k]) == None
  {
    var wireType := if f.VarintField? then WIRE_VARINT else WIRE_LEN;
    if k < |EncodeTag(f.num, wireType)| {
      assert EncodeField(f)[..k] == EncodeTag(f.num, wireType)[..k];
      TagTruncated(f.num, wireType, k);
    } else {
      match f
      case VarintField(num, value) => VarintFieldTruncated(num, value, k);
      case LenField(num, payload) => LenFieldTruncated(num, payload, k);
    }
  }

  /** How the records read from a cut message relate to the records written. */
  predicate LostRecords(fs: seq<Written>, r: Option<seq<Field>>) {
    r.None? || (|r.value| < |fs| && r.value == fs[..|r.value|])
  }

  lemma LostRecordsCons(f: Written, fs: seq<Written>, cut: bytes)
    requires Writable(f) && LostRecords(fs, ParseFields(cut))
    ensures LostRecords([f] + fs, ParseFields(EncodeField(f) + cut))
  {
    ParseFieldsCons(f, cut);
    var inner := ParseFields(cut);
    if inner.Some? {
      assert [f] + inner.value == ([f] + fs)[..|inner.value| + 1];
    }
  }

  /**
   A proper prefix of a message is malformed, unless it ends between two records: then it reads as the
   records before the cut, with at least one lost.
   */
  lemma {:induction false} FieldsTruncated(fs: seq<Written>, k: nat)
    requires AllWritable(fs) && k < |EncodeFields(fs)|
    ensures LostRecords(fs, ParseFields(EncodeFields(fs)[..k]))
  {
    var f, tail := fs[0], EncodeFields(fs[1..]);
    var head := EncodeField(f);
    assert EncodeFields(fs) == head + tail;
    if k < |head| {
      assert EncodeFields(fs)[..k] == head[..k];
      FieldTruncated(f, k);
    } else {
      assert EncodeFields(fs)[..k] == head + tail[..k - |head|];
      FieldsTruncated(fs[1..], k - |head|);
      LostRecordsCons(f, fs[1..], tail[..k - |head|]);
      assert [f] + fs[1..] == fs;
    }
  }
}
