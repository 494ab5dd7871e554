/**
 A whole version group as its ordered record sequence.

 `Group` says what the result is in terms of records that are really serialized and measured. The method
 `SerializeVersionGroup` computes it as the source does, from varint arithmetic alone; its contract is that the
 two agree. The lemmas then say what is promised of the result.
 */
module VersionGroup {
  import opened Prelude
  import opened Messages
  import opened Serializer
  import opened Deserializer
  import WireFormat
  import Varint

  // ------------------------------------------------------- size arithmetic

  /** `_tag_bytes`: the varint of the field number shifted past the wire type. */
  function TagBytes(fieldNumber: nat): nat {
    Varint.Bytes(fieldNumber * 8)
  }

  /** `_framed_bytes`: tag, length varint, payload. */
  function FramedBytes(tagBytes: nat, payloadBytes: nat): nat {
    tagBytes + Varint.Bytes(payloadBytes) + payloadBytes
  }

  function MutationBytes(m: MutationMsg): (n: nat)
    ensures n > 0
  {
    FramedBytes(TagBytes(TAG_MUTATIONS), |EncodeMutation(m)|)
  }

  function BatchBytes(ms: seq<MutationMsg>): nat {
    if ms == [] then 0 else MutationBytes(ms[0]) + BatchBytes(ms[1..])
  }

  function EnvelopeBytes(name: Name, ns: TimestampNs): nat {
    |EncodeRecord(Envelope(name, ns, NoRecord))|
  }

  function BatchMessage(ms: seq<MutationMsg>, name: Name, ns: TimestampNs): RecordMsg {
    Envelope(name, ns, BatchRecord(BatchMsg(ms)))
  }

  /** The true size of the record of a slice. */
  function RecordBytes(ms: seq<MutationMsg>, name: Name, ns: TimestampNs): nat {
    |EncodeRecord(BatchMessage(ms, name, ns))|
  }

  /** The computed size of a framed value is its true size; the wire type never changes the tag's. */
  lemma FramedExact(num: nat, payload: bytes)
    requires 1 <= num < 16
    ensures FramedBytes(TagBytes(num), |payload|) == |WireFormat.EncodeField(WireFormat.LenField(num, payload))|
  {
    Varint.BytesExact(num * 8);
    Varint.BytesExact(|payload|);
    WireFormat.TagLength(num, WireFormat.WIRE_LEN);
  }

  lemma {:induction false} BatchBytesExact(ms: seq<MutationMsg>)
    ensures BatchBytes(ms) == |EncodeBatch(ms)|
  {
    if ms != [] {
      FramedExact(TAG_MUTATIONS, EncodeMutation(ms[0]));
      BatchBytesExact(ms[1..]);
      assert BatchFields(ms)[1..] == BatchFields(ms[1..]);
    }
  }

  /** The size arithmetic is exact: envelope plus one framed batch is what the record really takes. */
  lemma RecordBytesExact(ms: seq<MutationMsg>, name: Name, ns: TimestampNs)
    ensures EnvelopeBytes(name, ns) + FramedBytes(TagBytes(TAG_BATCH), BatchBytes(ms)) == RecordBytes(ms, name, ns)
  {
    var x := BatchMessage(ms, name, ns);
    var head := OptLen(1, name) + SubTimestamp(2, x.bridgeTimestamp);
    WireFormat.EncodeFieldsAppend(head, RecordArmFields(x.arm));
    WireFormat.EncodeFieldsOne(RecordArmFields(x.arm)[0]);
    assert RecordFields(Envelope(name, ns, NoRecord)) == head;
    FramedExact(TAG_BATCH, EncodeBatch(ms));
    BatchBytesExact(ms);
  }

  // ------------------------------------------------------------ monotonicity

  lemma {:induction false} BatchBytesAppend(a: seq<MutationMsg>, b: seq<MutationMsg>)
    ensures BatchBytes(a + b) == BatchBytes(a) + BatchBytes(b)
  {
    if a == [] {
      assert a + b == b;
    } else {
      assert (a + b)[1..] == a[1..] + b;
      BatchBytesAppend(a[1..], b);
    }
  }

  lemma BatchBytesOne(m: MutationMsg)
    ensures BatchBytes([m]) == MutationBytes(m)
  {
    assert BatchBytes([m][1..]) == 0;
  }

  lemma FramedMonotone(tagBytes: nat, a: nat, b: nat)
    requires a <= b
    ensures FramedBytes(tagBytes, a) <= FramedBytes(tagBytes, b)
  {
    Varint.BytesExact(a);
    Varint.BytesExact(b);
    Varint.LengthMonotone(a, b);
  }

  /** A slice inside another takes no more bytes. */
  lemma SubSliceSmaller(ms: seq<MutationMsg>, a: nat, b: nat, c: nat, d: nat, name: Name, ns: TimestampNs)
    requires a <= b <= c <= d <= |ms|
    ensures RecordBytes(ms[b..c], name, ns) <= RecordBytes(ms[a..d], name, ns)
  {
    assert ms[a..d] == ms[a..b] + ms[b..c] + ms[c..d];
    BatchBytesAppend(ms[a..b] + ms[b..c], ms[c..d]);
    BatchBytesAppend(ms[a..b], ms[b..c]);
    RecordBytesExact(ms[b..c], name, ns);
    RecordBytesExact(ms[a..d], name, ns);
    FramedMonotone(TagBytes(TAG_BATCH), BatchBytes(ms[b..c]), BatchBytes(ms[a..d]));
  }

  // ----------------------------------------------------- what the result is

  /** What records must fit: the name and time in each of them, and the budget. */
  datatype Target = Target(name: Name, ns: TimestampNs, budget: int)

  predicate Fits(t: Target, ms: seq<MutationMsg>) {
    RecordBytes(ms, t.name, t.ns) <= t.budget
  }

  predicate FitsAlone(t: Target, m: MutationMsg) {
    Fits(t, [m])
  }

  /** The first mutation from `i` on that does not fit a record of its own. */
  function FirstTooLarge(t: Target, ms: seq<MutationMsg>, i: nat): (r: Option<nat>)
    requires i <= |ms|
    ensures r.Some? ==> i <= r.value < |ms|
    decreases |ms| - i
  {
    if i == |ms| then None
    else if !FitsAlone(t, ms[i]) then Some(i)
    else FirstTooLarge(t, ms, i + 1)
  }

  lemma {:induction false} FirstTooLargeIs(t: Target, ms: seq<MutationMsg>, i: nat)
    requires i <= |ms|
    ensures var r := FirstTooLarge(t, ms, i);
            && (r.None? <==> forall j :: i <= j < |ms| ==> FitsAlone(t, ms[j]))
            && (r.Some? ==> !FitsAlone(t, ms[r.value]) && forall j :: i <= j < r.value ==> FitsAlone(t, ms[j]))
    decreases |ms| - i
  {
    hide FitsAlone;
    if i < |ms| && FitsAlone(t, ms[i]) {
      FirstTooLargeIs(t, ms, i + 1);
    }
  }

  /** How far the slice that begins at `a` and holds everything before `b` can be grown. */
  function Reach(t: Target, ms: seq<MutationMsg>, a: nat, b: nat): (e: nat)
    requires a < b <= |ms|
    ensures b <= e <= |ms|
    decreases |ms| - b
  {
    if b < |ms| && Fits(t, ms[a..b + 1]) then Reach(t, ms, a, b + 1) else b
  }

  /** The greedy slices of everything from `a` on. */
  function Slices(t: Target, ms: seq<MutationMsg>, a: nat): seq<(nat, nat)>
    requires a <= |ms|
    decreases |ms| - a
  {
    if a == |ms| then []
    else
      var b := Reach(t, ms, a, a + 1);
      [(a, b)] + Slices(t, ms, b)
  }

  /** Slices that cover the positions from `a` to the end, in order and without overlap. */
  predicate Tiles(slices: seq<(nat, nat)>, a: nat, n: nat) {
    if slices == [] then a == n
    else slices[0].0 == a && a < slices[0].1 <= n && Tiles(slices[1..], slices[0].1, n)
  }

  predicate AllFit(t: Target, ms: seq<MutationMsg>, slices: seq<(nat, nat)>) {
    forall k :: 0 <= k < |slices| ==>
      0 <= slices[k].0 <= slices[k].1 <= |ms| && Fits(t, ms[slices[k].0..slices[k].1])
  }

  lemma {:induction false} SlicesTile(t: Target, ms: seq<MutationMsg>, a: nat)
    requires a <= |ms|
    ensures Tiles(Slices(t, ms, a), a, |ms|)
    decreases |ms| - a
  {
    if a < |ms| {
      var b := Reach(t, ms, a, a + 1);
      SlicesTile(t, ms, b);
      assert Slices(t, ms, a)[1..] == Slices(t, ms, b);
    }
  }

  lemma SliceSerializes(ms: seq<Checked>, version: Version, t: Target, a: nat, b: nat)
    requires a < b <= |ms| && |ms| - 1 <= MAX_SEQUENCE_NO && t.name != []
    ensures SerializeBatch(ms[a..b], version, a, t.name, t.ns)
         == Ok(EncodeRecord(BatchMessage(MutationMessages(ms, version, 0)[a..b], t.name, t.ns)))
  {
    hide EncodeRecord;
    var slice := ms[a..b];
    NativesPass(slice, a, 0);
    assert slice[0..] == slice;
    assert MutationMessages(slice, version, a) == MutationMessages(ms, version, 0)[a..b];
  }

  /** The record of one slice: what `serialize_batch` writes for it. */
  function SliceRecord(ms: seq<Checked>, version: Version, t: Target, slice: (nat, nat)): (r: bytes)
    requires slice.0 < slice.1 <= |ms| && |ms| - 1 <= MAX_SEQUENCE_NO && t.name != []
    ensures SerializeBatch(ms[slice.0..slice.1], version, slice.0, t.name, t.ns) == Ok(r)
  {
    SliceSerializes(ms, version, t, slice.0, slice.1);
    SerializeBatch(ms[slice.0..slice.1], version, slice.0, t.name, t.ns).value
  }

  function SliceRecords(ms: seq<Checked>, version: Version, t: Target, slices: seq<(nat, nat)>, a: nat): (r: seq<bytes>)
    requires (ms == [] || |ms| - 1 <= MAX_SEQUENCE_NO) && t.name != []
    requires a <= |ms| && Tiles(slices, a, |ms|)
    ensures |r| == |slices|
    decreases |slices|
  {
    if slices == [] then []
    else [SliceRecord(ms, version, t, slices[0])] + SliceRecords(ms, version, t, slices[1..], slices[0].1)
  }

  /** The records of a group of checked mutations: each slice as `serialize_batch` writes it, then the end. */
  function CheckedGroup(ms: seq<Checked>, version: Version, t: Target): Result<seq<bytes>, InputError>
    requires (ms == [] || |ms| - 1 <= MAX_SEQUENCE_NO) && t.name != []
  {
    var messages := MutationMessages(ms, version, 0);
    match FirstTooLarge(t, messages, 0)
    case Some(i) => Err(TooLarge(Some(i), RecordBytes([messages[i]], t.name, t.ns), t.budget))
    case None =>
      var end :- SerializeVersionEnd(version, |ms|, t.name, t.ns);
      if |end| > t.budget then Err(TooLarge(None, |end|, t.budget))
      else
        SlicesTile(t, messages, 0);
        Ok(SliceRecords(ms, version, t, Slices(t, messages, 0), 0) + [end])
  }

  function Group(ms: seq<Native>, version: int, budget: int, name: Name, ns: int): Result<seq<bytes>, InputError> {
    var range := CheckVersion(version);
    :- range;
    :- Need(budget >= 1, "max_record_bytes", None);
    :- CheckEnvelope(name, ns);
    var natives :- CheckNatives(ms, 0, 0);
    assert natives != [] ==> |natives| - 1 <= MAX_SEQUENCE_NO by {
      if natives != [] {
        NativesInRange(ms, 0);
      }
    }
    CheckedGroup(natives, version, Target(name, ns, budget))
  }

  // -------------------------------------------------- the algorithm itself

  /** The loop has closed the greedy slices in `closed` and is filling the one that begins at `start`. */
  ghost predicate Slicing(t: Target, ms: seq<MutationMsg>, closed: seq<(nat, nat)>, start: nat, i: nat)
    requires start < i <= |ms|
  {
    && Fits(t, ms[start..i])
    && Slices(t, ms, 0) == closed + [(start, Reach(t, ms, start, i))] + Slices(t, ms, Reach(t, ms, start, i))
  }

  /** What the loop knows after `i` mutations. */
  ghost predicate Progress(t: Target, ms: seq<MutationMsg>, closed: seq<(nat, nat)>, start: nat, i: nat,
                           batchBytes: nat)
  {
    && start <= i <= |ms|
    && (start == i <==> i == 0)
    && batchBytes == BatchBytes(ms[start..i])
    && (batchBytes == 0 <==> i == 0)
    && (if i == 0 then closed == [] else Slicing(t, ms, closed, start, i))
    && forall j :: 0 <= j < i ==> FitsAlone(t, ms[j])
  }

  function Alone(t: Target, m: MutationMsg): nat {
    EnvelopeBytes(t.name, t.ns) + FramedBytes(TagBytes(TAG_BATCH), MutationBytes(m))
  }

  function Grown(t: Target, m: MutationMsg, batchBytes: nat): nat {
    EnvelopeBytes(t.name, t.ns) + FramedBytes(TagBytes(TAG_BATCH), batchBytes + MutationBytes(m))
  }

  lemma AloneExact(t: Target, m: MutationMsg)
    ensures RecordBytes([m], t.name, t.ns) == Alone(t, m)
    ensures FitsAlone(t, m) <==> Alone(t, m) <= t.budget
  {
    hide MutationBytes, EnvelopeBytes, FramedBytes, BatchBytes, RecordBytes;
    BatchBytesOne(m);
    RecordBytesExact([m], t.name, t.ns);
  }

  lemma GrownExact(t: Target, ms: seq<MutationMsg>, start: nat, i: nat)
    requires start <= i < |ms|
    ensures BatchBytes(ms[start..i + 1]) == BatchBytes(ms[start..i]) + MutationBytes(ms[i])
    ensures Fits(t, ms[start..i + 1]) <==> Grown(t, ms[i], BatchBytes(ms[start..i])) <= t.budget
    ensures Fits(t, ms[start..i + 1]) ==> FitsAlone(t, ms[i])
  {
    hide MutationBytes, EnvelopeBytes, FramedBytes, BatchBytes, RecordBytes;
    assert ms[start..i + 1] == ms[start..i] + [ms[i]];
    BatchBytesAppend(ms[start..i], [ms[i]]);
    BatchBytesOne(ms[i]);
    RecordBytesExact(ms[start..i + 1], t.name, t.ns);
    SubSliceSmaller(ms, start, i, i + 1, i + 1, t.name, t.ns);
    assert ms[i..i + 1] == [ms[i]];
  }

  lemma ProgressBegins(t: Target, ms: seq<MutationMsg>)
    ensures Progress(t, ms, [], 0, 0, 0)
  {
  }

  lemma ProgressFirst(t: Target, ms: seq<MutationMsg>, closed: seq<(nat, nat)>, start: nat, i: nat, batchBytes: nat)
    requires Progress(t, ms, closed, start, i, batchBytes)
    ensures i == 0 ==> start == 0 && closed == []
  {
    hide Slicing, Fits;
  }

  /** The mutation does not fit a record of its own: the loop has found the first that is too large. */
  lemma ProgressFails(t: Target, ms: seq<MutationMsg>, closed: seq<(nat, nat)>, start: nat, i: nat, batchBytes: nat)
    requires i < |ms| && Progress(t, ms, closed, start, i, batchBytes) && Alone(t, ms[i]) > t.budget
    ensures FirstTooLarge(t, ms, 0) == Some(i) && RecordBytes([ms[i]], t.name, t.ns) == Alone(t, ms[i])
  {
    hide Slicing, FitsAlone, Alone, RecordBytes, BatchBytes;
    FirstTooLargeIs(t, ms, 0);
    AloneExact(t, ms[i]);
  }

  lemma SlicingOpens(t: Target, ms: seq<MutationMsg>, closed: seq<(nat, nat)>, start: nat, i: nat)
    requires 0 < i < |ms| && start < i && Slicing(t, ms, closed, start, i)
    requires !Fits(t, ms[start..i + 1]) && Fits(t, ms[i..i + 1])
    ensures Slicing(t, ms, closed + [(start, i)], i, i + 1)
  {
    hide Fits;
    assert Slices(t, ms, i) == [(i, Reach(t, ms, i, i + 1))] + Slices(t, ms, Reach(t, ms, i, i + 1));
  }

  lemma SlicingBegins(t: Target, ms: seq<MutationMsg>)
    requires ms != [] && Fits(t, ms[0..1])
    ensures Slicing(t, ms, [], 0, 1)
  {
    hide Fits;
  }

  lemma SlicingGrows(t: Target, ms: seq<MutationMsg>, closed: seq<(nat, nat)>, start: nat, i: nat)
    requires start < i < |ms| && Slicing(t, ms, closed, start, i) && Fits(t, ms[start..i + 1])
    ensures Slicing(t, ms, closed, start, i + 1)
  {
    hide Fits;
  }

  lemma SliceOfOne(t: Target, ms: seq<MutationMsg>, i: nat)
    requires i < |ms|
    ensures FitsAlone(t, ms[i]) <==> Alone(t, ms[i]) <= t.budget
    ensures Fits(t, ms[i..i + 1]) <==> FitsAlone(t, ms[i])
    ensures BatchBytes(ms[i..i + 1]) == MutationBytes(ms[i])
  {
    hide Alone, RecordBytes;
    assert ms[i..i + 1] == [ms[i]];
    AloneExact(t, ms[i]);
    BatchBytesOne(ms[i]);
  }

  /** A slice begins with mutation `i`: the first, or the one the slice being filled has no room for. */
  lemma ProgressOpens(t: Target, ms: seq<MutationMsg>, closed: seq<(nat, nat)>, start: nat, i: nat, batchBytes: nat)
    requires i < |ms| && Progress(t, ms, closed, start, i, batchBytes) && Alone(t, ms[i]) <= t.budget
    requires i > 0 ==> Grown(t, ms[i], batchBytes) > t.budget
    ensures Progress(t, ms, if i == 0 then [] else closed + [(start, i)], i, i + 1, MutationBytes(ms[i]))
  {
    hide Slicing, Fits, FitsAlone, Alone, Grown, BatchBytes;
    SliceOfOne(t, ms, i);
    if i == 0 {
      SlicingBegins(t, ms);
    } else {
      GrownExact(t, ms, start, i);
      SlicingOpens(t, ms, closed, start, i);
    }
  }

  /** The slice being filled has room for mutation `i`. */
  lemma ProgressGrows(t: Target, ms: seq<MutationMsg>, closed: seq<(nat, nat)>, start: nat, i: nat, batchBytes: nat)
    requires 0 < i < |ms| && Progress(t, ms, closed, start, i, batchBytes) && Grown(t, ms[i], batchBytes) <= t.budget
    ensures Progress(t, ms, closed, start, i + 1, batchBytes + MutationBytes(ms[i]))
  {
    hide Slicing, Fits, FitsAlone, Grown, BatchBytes;
    GrownExact(t, ms, start, i);
    SlicingGrows(t, ms, closed, start, i);
  }

  lemma ProgressEnds(t: Target, ms: seq<MutationMsg>, closed: seq<(nat, nat)>, start: nat, batchBytes: nat)
    requires Progress(t, ms, closed, start, |ms|, batchBytes)
    ensures FirstTooLarge(t, ms, 0).None?
    ensures ms == [] ==> closed == []
    ensures Slices(t, ms, 0) == if ms == [] then [] else closed + [(start, |ms|)]
  {
    hide Fits;
    FirstTooLargeIs(t, ms, 0);
    assert closed + [(start, |ms|)] + [] == closed + [(start, |ms|)];
  }

  lemma {:induction false} SliceRecordsAre(ms: seq<Checked>, version: Version, t: Target, slices: seq<(nat, nat)>,
                                           a: nat)
    requires (ms == [] || |ms| - 1 <= MAX_SEQUENCE_NO) && t.name != []
    requires a <= |ms| && Tiles(slices, a, |ms|)
    ensures forall k :: 0 <= k < |slices| ==> slices[k].0 < slices[k].1 <= |ms|
    ensures forall k :: 0 <= k < |slices| ==>
      SliceRecords(ms, version, t, slices, a)[k] ==
      EncodeRecord(BatchMessage(MutationMessages(ms, version, 0)[slices[k].0..slices[k].1], t.name, t.ns))
    decreases |slices|
  {
    hide SerializeBatch, EncodeRecord, MutationMessages, BatchMessage;
    if slices != [] {
      SliceSerializes(ms, version, t, slices[0].0, slices[0].1);
      SliceRecordsAre(ms, version, t, slices[1..], slices[0].1);
      forall k | 0 < k < |slices| ensures slices[k] == slices[1..][k - 1] {
      }
    }
  }

  method SerializeVersionGroup(ms: seq<Native>, version: int, budget: int, name: Name, ns: int)
    returns (r: Result<seq<bytes>, InputError>)
    ensures r == Group(ms, version, budget, name, ns)
  {
    var check := CheckVersion(version);
    if check.Fail? {
      return Err(check.error);
    }
    check := Need(budget >= 1, "max_record_bytes", None);
    if check.Fail? {
      return Err(check.error);
    }
    check := CheckEnvelope(name, ns);
    if check.Fail? {
      return Err(check.error);
    }
    var natives := Natives(ms, 0);
    if natives.Err? {
      return Err(natives.error);
    }
    if ms != [] {
      NativesInRange(ms, 0);
    }
    var messages := MutationMessages(natives.value, version, 0);
    var slices := SliceMessages(messages, budget, name, ns);
    if slices.Err? {
      return Err(slices.error);
    }
    var versionEnd := SerializeVersionEnd(version, |messages|, name, ns);
    if versionEnd.Err? {
      return Err(versionEnd.error);
    }
    if |versionEnd.value| > budget {
      return Err(TooLarge(None, |versionEnd.value|, budget));
    }
    ghost var t := Target(name, ns, budget);
    SlicesTile(t, messages, 0);
    SliceRecordsAre(natives.value, version, t, slices.value, 0);
    var records := seq(|slices.value|, k requires 0 <= k < |slices.value| =>
      EncodeRecord(BatchMessage(messages[slices.value[k].0..slices.value[k].1], name, ns)));
    assert records == SliceRecords(natives.value, version, t, slices.value, 0);
    return Ok(records + [versionEnd.value]);
  }

  /** The slicing loop of `serialize_version_group`. */
  method SliceMessages(messages: seq<MutationMsg>, budget: int, name: Name, ns: TimestampNs)
    returns (r: Result<seq<(nat, nat)>, InputError>)
    ensures var t := Target(name, ns, budget);
            r == match FirstTooLarge(t, messages, 0)
                 case Some(i) => Err(TooLarge(Some(i), RecordBytes([messages[i]], name, ns), budget))
                 case None => Ok(Slices(t, messages, 0))
  {
    hide RecordBytes, MutationBytes, EnvelopeBytes, FramedBytes, Progress;
    ghost var t := Target(name, ns, budget);
    var envelopeBytes := EnvelopeBytes(name, ns);
    var slices: seq<(nat, nat)> := [];
    var start, batchBytes, i := 0, 0, 0;
    ProgressBegins(t, messages);
    while i < |messages|
      invariant 0 <= i <= |messages|
      invariant batchBytes == 0 <==> i == 0
      invariant Progress(t, messages, slices, start, i, batchBytes)
    {
      ghost var begun, closed, filled := start, slices, batchBytes;
      var mutationBytes := MutationBytes(messages[i]);
      var grown := envelopeBytes + FramedBytes(TagBytes(TAG_BATCH), batchBytes + mutationBytes);
      if batchBytes != 0 && grown > budget {
        slices := slices + [(start, i)];
        start := i;
        batchBytes := 0;
      }
      if batchBytes == 0 {
        var alone := envelopeBytes + FramedBytes(TagBytes(TAG_BATCH), mutationBytes);
        if alone > budget {
          ProgressFails(t, messages, closed, begun, i, filled);
          return Err(TooLarge(Some(i), alone, budget));
        }
        ProgressFirst(t, messages, closed, begun, i, filled);
        ProgressOpens(t, messages, closed, begun, i, filled);
      } else {
        ProgressGrows(t, messages, slices, start, i, batchBytes);
      }
      batchBytes := batchBytes + mutationBytes;
      i := i + 1;
    }
    ProgressEnds(t, messages, slices, start, batchBytes);
    if messages != [] {
      slices := slices + [(start, |messages|)];
    }
    return Ok(slices);
  }

  // --------------------------------------------------- what is promised of it

  lemma {:induction false} GreedyFits(t: Target, ms: seq<MutationMsg>, a: nat)
    requires a <= |ms| && FirstTooLarge(t, ms, 0).None?
    ensures AllFit(t, ms, Slices(t, ms, a))
    decreases |ms| - a
  {
    hide RecordBytes;
    FirstTooLargeIs(t, ms, 0);
    if a < |ms| {
      assert ms[a..a + 1] == [ms[a]];
      var b := Reach(t, ms, a, a + 1);
      ReachIsLast(t, ms, a, a + 1);
      GreedyFits(t, ms, b);
    }
  }

  /** A slice is grown as far as it fits, and no further. */
  lemma {:induction false} ReachIsLast(t: Target, ms: seq<MutationMsg>, a: nat, b: nat)
    requires a < b <= |ms| && Fits(t, ms[a..b])
    ensures var e := Reach(t, ms, a, b); Fits(t, ms[a..e]) && (e < |ms| ==> !Fits(t, ms[a..e + 1]))
    decreases |ms| - b
  {
    hide RecordBytes;
    if b < |ms| && Fits(t, ms[a..b + 1]) {
      ReachIsLast(t, ms, a, b + 1);
    }
  }

  /** Greedy stays ahead: from a later start, with slices as long as they can be, it never needs more. */
  lemma {:induction false} StaysAhead(t: Target, ms: seq<MutationMsg>, a: nat, other: seq<(nat, nat)>, b: nat)
    requires b <= a <= |ms| && FirstTooLarge(t, ms, 0).None?
    requires Tiles(other, b, |ms|) && AllFit(t, ms, other)
    ensures |Slices(t, ms, a)| <= |other|
    decreases |other|
  {
    hide RecordBytes;
    FirstTooLargeIs(t, ms, 0);
    if a < |ms| {
      var next := other[0].1;
      var e := Reach(t, ms, a, a + 1);
      assert ms[a..a + 1] == [ms[a]];
      ReachIsLast(t, ms, a, a + 1);
      if e < next {
        SubSliceSmaller(ms, b, a, e + 1, next, t.name, t.ns);
      }
      StaysAhead(t, ms, e, other[1..], next);
    }
  }

  /** If any slicing fits, then so does every mutation in a record of its own. */
  lemma {:induction false} SinglesFit(t: Target, ms: seq<MutationMsg>, other: seq<(nat, nat)>, a: nat, i: nat)
    requires a <= i < |ms| && Tiles(other, a, |ms|) && AllFit(t, ms, other)
    ensures FitsAlone(t, ms[i])
    decreases |other|
  {
    hide RecordBytes;
    var b := other[0].1;
    if i < b {
      SubSliceSmaller(ms, a, i, i + 1, b, t.name, t.ns);
      assert ms[i..i + 1] == [ms[i]];
    } else {
      SinglesFit(t, ms, other[1..], b, i);
    }
  }

  /** Greedy slicing is optimal: whenever the group can be sliced at all, it fits, in the fewest records possible. */
  lemma GreedyIsOptimal(t: Target, ms: seq<MutationMsg>, other: seq<(nat, nat)>)
    requires Tiles(other, 0, |ms|) && AllFit(t, ms, other)
    ensures FirstTooLarge(t, ms, 0).None?
    ensures Tiles(Slices(t, ms, 0), 0, |ms|) && AllFit(t, ms, Slices(t, ms, 0))
    ensures |Slices(t, ms, 0)| <= |other|
  {
    hide RecordBytes, FitsAlone;
    forall i | 0 <= i < |ms| ensures FitsAlone(t, ms[i]) {
      SinglesFit(t, ms, other, 0, i);
    }
    FirstTooLargeIs(t, ms, 0);
    SlicesTile(t, ms, 0);
    GreedyFits(t, ms, 0);
    StaysAhead(t, ms, 0, other, 0);
  }

  predicate ValidInputs(ms: seq<Native>, version: int, budget: int, name: Name, ns: int) {
    && CheckVersion(version).Pass?
    && budget >= 1
    && CheckEnvelope(name, ns).Pass?
    && CheckNatives(ms, 0, 0).Ok?
  }

  /** The record mutation `i` would need alone is over the budget. */
  predicate TooLargeAlone(ms: seq<Native>, version: int, budget: int, name: Name, ns: int, i: nat)
    requires i < |ms|
  {
    match SerializeBatch([ms[i]], version, i, name, ns)
    case Ok(data) => |data| > budget
    case Err(_) => false
  }

  lemma TooLargeIsUnfit(ms: seq<Native>, version: int, budget: int, name: Name, ns: int, i: nat)
    requires ValidInputs(ms, version, budget, name, ns) && i < |ms|
    ensures |ms| - 1 <= MAX_SEQUENCE_NO
    ensures SerializeBatch([ms[i]], version, i, name, ns).Ok?
    ensures var t, messages := Target(name, ns, budget), MutationMessages(ms, version, 0);
            && |SerializeBatch([ms[i]], version, i, name, ns).value| == RecordBytes([messages[i]], name, ns)
            && (TooLargeAlone(ms, version, budget, name, ns, i) <==> !FitsAlone(t, messages[i]))
  {
    NativesInRange(ms, 0);
    var messages := MutationMessages(ms, version, 0);
    assert ms[i..i + 1] == [ms[i]] && messages[i..i + 1] == [messages[i]];
    SliceSerializes(ms, version, Target(name, ns, budget), i, i + 1);
  }

  /** An error names mutation `i` exactly when it is the first whose record alone is over the budget. */
  lemma TooLargeExactly(ms: seq<Native>, version: int, budget: int, name: Name, ns: int, i: nat)
    requires ValidInputs(ms, version, budget, name, ns)
    ensures (exists n :: Group(ms, version, budget, name, ns) == Err(TooLarge(Some(i), n, budget))) <==>
            && i < |ms|
            && TooLargeAlone(ms, version, budget, name, ns, i)
            && forall j :: 0 <= j < i ==> !TooLargeAlone(ms, version, budget, name, ns, j)
  {
    hide RecordBytes, FitsAlone;
    assert ms[0..] == ms;
    if ms != [] {
      NativesInRange(ms, 0);
      var t, messages := Target(name, ns, budget), MutationMessages(ms, version, 0);
      forall j | 0 <= j < |ms|
        ensures TooLargeAlone(ms, version, budget, name, ns, j) <==> !FitsAlone(t, messages[j])
      {
        TooLargeIsUnfit(ms, version, budget, name, ns, j);
      }
      FirstTooLargeIs(t, messages, 0);
      var first := FirstTooLarge(t, messages, 0);
      if first.Some? {
        assert Group(ms, version, budget, name, ns)
            == Err(TooLarge(first, RecordBytes([messages[first.value]], name, ns), budget));
      }
    }
  }

  /** An error names no mutation exactly when none is too large alone but the version end is. */
  lemma EndTooLargeExactly(ms: seq<Native>, version: int, budget: int, name: Name, ns: int)
    requires ValidInputs(ms, version, budget, name, ns)
    ensures (exists n :: Group(ms, version, budget, name, ns) == Err(TooLarge(None, n, budget))) <==>
            && (forall j :: 0 <= j < |ms| ==> !TooLargeAlone(ms, version, budget, name, ns, j))
            && SerializeVersionEnd(version, |ms|, name, ns).Ok?
            && |SerializeVersionEnd(version, |ms|, name, ns).value| > budget
  {
    hide RecordBytes, FitsAlone;
    assert ms[0..] == ms;
    if ms != [] {
      NativesInRange(ms, 0);
    }
    var t, messages := Target(name, ns, budget), MutationMessages(ms, version, 0);
    forall j | 0 <= j < |ms|
      ensures TooLargeAlone(ms, version, budget, name, ns, j) <==> !FitsAlone(t, messages[j])
    {
      TooLargeIsUnfit(ms, version, budget, name, ns, j);
    }
    FirstTooLargeIs(t, messages, 0);
    var end := SerializeVersionEnd(version, |ms|, name, ns);
    if FirstTooLarge(t, messages, 0).None? && end.Ok? && |end.value| > budget {
      assert Group(ms, version, budget, name, ns) == Err(TooLarge(None, |end.value|, budget));
    }
  }

  /**
   A group that can be serialized: the arguments in range, no mutation too large for a record of its own, few enough to
   be counted, and a version end that fits.
   */
  predicate GroupFits(ms: seq<Native>, version: int, budget: int, name: Name, ns: int) {
    && GoodEnvelope(version, name, ns) && budget >= 1
    && |ms| < 0x1_0000_0000
    && (forall i :: 0 <= i < |ms| ==> 0 <= ms[i].code < 256)
    && (forall i :: 0 <= i < |ms| ==> !TooLargeAlone(ms, version, budget, name, ns, i))
    && EndFits(version, |ms|, budget, name, ns)
  }

  predicate EndFits(version: int, total: int, budget: int, name: Name, ns: int) {
    match SerializeVersionEnd(version, total, name, ns)
    case Ok(data) => |data| <= budget
    case Err(_) => false
  }

  /** Exactly those groups are serialized, whatever slices they need. */
  lemma GroupSerializesExactly(ms: seq<Native>, version: int, budget: int, name: Name, ns: int)
    ensures Group(ms, version, budget, name, ns).Ok? <==> GroupFits(ms, version, budget, name, ns)
  {
    hide RecordBytes, FitsAlone, SliceRecords, Slices, MutationMessages, TooLargeAlone, SerializeVersionEnd;
    ValidExactly(ms, version, budget, name, ns);
    VersionEndSerializesExactly(version, |ms|, name, ns);
    if ValidInputs(ms, version, budget, name, ns) {
      var t := Target(name, ns, budget);
      assert ms[0..] == ms;
      if ms != [] {
        NativesInRange(ms, 0);
      }
      var messages := MutationMessages(ms, version, 0);
      forall i | 0 <= i < |ms| ensures TooLargeAlone(ms, version, budget, name, ns, i) <==> !FitsAlone(t, messages[i]) {
        TooLargeIsUnfit(ms, version, budget, name, ns, i);
      }
      FirstTooLargeIs(t, messages, 0);
    }
  }

  lemma ValidExactly(ms: seq<Native>, version: int, budget: int, name: Name, ns: int)
    ensures ValidInputs(ms, version, budget, name, ns) <==>
            && GoodEnvelope(version, name, ns) && budget >= 1 && |ms| <= 0x1_0000_0000
            && forall i :: 0 <= i < |ms| ==> 0 <= ms[i].code < 256
  {
    NativesPass(ms, 0, 0);
    if |ms| > 0x1_0000_0000 {
      assert NativeFault(ms[|ms| - 1], 0, |ms| - 1).Some?;
    }
    if CheckNatives(ms, 0, 0).Ok? {
      assert forall i :: 0 <= i < |ms| ==> NativeFault(ms[i], 0, i).None?;
    }
  }

  // ------------------------------------------------------------- round trip

  function MutationsOf(bodies: seq<Body>): seq<Mutation> {
    if bodies == [] then []
    else (if bodies[0].Batch? then bodies[0].mutations else []) + MutationsOf(bodies[1..])
  }

  function SliceBodies(run: seq<Mutation>, slices: seq<(nat, nat)>, a: nat): (r: seq<Body>)
    requires a <= |run| && Tiles(slices, a, |run|)
    ensures |r| == |slices|
    decreases |slices|
  {
    if slices == [] then []
    else [Batch(run[slices[0].0..slices[0].1])] + SliceBodies(run, slices[1..], slices[0].1)
  }

  lemma {:induction false} SliceBodiesCover(run: seq<Mutation>, slices: seq<(nat, nat)>, a: nat, end: Body)
    requires a <= |run| && Tiles(slices, a, |run|) && end.VersionEnd?
    ensures MutationsOf(SliceBodies(run, slices, a) + [end]) == run[a..]
    ensures forall k :: 0 <= k < |slices| ==> SliceBodies(run, slices, a)[k].Batch?
    decreases |slices|
  {
    var bodies := SliceBodies(run, slices, a) + [end];
    if slices == [] {
      assert bodies[1..] == [];
    } else {
      var b := slices[0].1;
      SliceBodiesCover(run, slices[1..], b, end);
      assert bodies[1..] == SliceBodies(run, slices[1..], b) + [end];
      assert run[a..] == run[a..b] + run[b..];
    }
  }

  lemma SliceRecordReads(ms: seq<Checked>, version: Version, t: Target, a: nat, b: nat)
    requires a < b <= |ms| && |ms| - 1 <= MAX_SEQUENCE_NO && t.name != []
    ensures var data := SliceRecord(ms, version, t, (a, b));
            |data| <= MAX_MESSAGE_BYTES ==>
              DeserializeRecord(data) == Ok(Record(t.name, Some(t.ns), Batch(TaggedRun(ms, version, 0)[a..b])))
  {
    hide DeserializeRecord;
    var data := SliceRecord(ms, version, t, (a, b));
    assert SerializeBatch(ms[a..b], version, a, t.name, t.ns) == Ok(data);
    BatchRoundTrips(ms[a..b], version, a, t.name, t.ns);
    assert TaggedRun(ms[a..b], version, a) == TaggedRun(ms, version, 0)[a..b];
  }

  predicate Reads(records: seq<bytes>, bodies: seq<Body>, name: Name, ns: int) {
    && |records| == |bodies|
    && forall k :: 0 <= k < |records| && |records[k]| <= MAX_MESSAGE_BYTES ==>
         DeserializeRecord(records[k]) == Ok(Record(name, Some(ns), bodies[k]))
  }

  lemma ReadsNone(name: Name, ns: int)
    ensures Reads([], [], name, ns)
  {
  }

  lemma ReadsFirst(data: bytes, body: Body, records: seq<bytes>, bodies: seq<Body>, name: Name, ns: int)
    requires |data| <= MAX_MESSAGE_BYTES ==> DeserializeRecord(data) == Ok(Record(name, Some(ns), body))
    requires Reads(records, bodies, name, ns)
    ensures Reads([data] + records, [body] + bodies, name, ns)
  {
    hide DeserializeRecord;
  }

  lemma {:induction false} SliceRecordsRead(ms: seq<Checked>, version: Version, t: Target, slices: seq<(nat, nat)>,
                                            a: nat)
    requires (ms == [] || |ms| - 1 <= MAX_SEQUENCE_NO) && t.name != []
    requires a <= |ms| && Tiles(slices, a, |ms|)
    ensures Reads(SliceRecords(ms, version, t, slices, a), SliceBodies(TaggedRun(ms, version, 0), slices, a),
                  t.name, t.ns)
    decreases |slices|
  {
    hide DeserializeRecord, SliceRecord, TaggedRun, Reads;
    ReadsNone(t.name, t.ns);
    if slices != [] {
      var b, run := slices[0].1, TaggedRun(ms, version, 0);
      SliceRecordReads(ms, version, t, a, b);
      SliceRecordsRead(ms, version, t, slices[1..], b);
      ReadsFirst(SliceRecord(ms, version, t, slices[0]), Batch(run[a..b]), SliceRecords(ms, version, t, slices[1..], b),
                 SliceBodies(run, slices[1..], b), t.name, t.ns);
    }
  }

  /** A successful group is its slice records and its version end. */
  lemma GroupParts(ms: seq<Native>, version: int, budget: int, name: Name, ns: int)
    requires Group(ms, version, budget, name, ns).Ok?
    ensures ValidInputs(ms, version, budget, name, ns)
    ensures (forall i :: 0 <= i < |ms| ==> 0 <= ms[i].code <= MAX_TYPE_CODE)
    ensures ms == [] || |ms| - 1 <= MAX_SEQUENCE_NO
    ensures SerializeVersionEnd(version, |ms|, name, ns).Ok?
    ensures |SerializeVersionEnd(version, |ms|, name, ns).value| <= budget
    ensures var t, messages := Target(name, ns, budget), MutationMessages(ms, version, 0);
            && FirstTooLarge(t, messages, 0).None?
            && Tiles(Slices(t, messages, 0), 0, |ms|)
            && Group(ms, version, budget, name, ns).value
            == SliceRecords(ms, version, t, Slices(t, messages, 0), 0)
               + [SerializeVersionEnd(version, |ms|, name, ns).value]
  {
    assert ms[0..] == ms;
    var natives := CheckNatives(ms, 0, 0).value;
    assert natives == ms;
    if ms != [] {
      NativesInRange(ms, 0);
    }
    SlicesTile(Target(name, ns, budget), MutationMessages(natives, version, 0), 0);
  }

  lemma SliceBytes(ms: seq<Checked>, version: Version, t: Target, slices: seq<(nat, nat)>, k: nat)
    requires (ms == [] || |ms| - 1 <= MAX_SEQUENCE_NO) && t.name != []
    requires Tiles(slices, 0, |ms|) && AllFit(t, MutationMessages(ms, version, 0), slices) && k < |slices|
    ensures |SliceRecords(ms, version, t, slices, 0)[k]| <= t.budget
  {
    SliceRecordsAre(ms, version, t, slices, 0);
  }

  /** Every record returned is within the budget. */
  lemma WithinBudget(ms: seq<Native>, version: int, budget: int, name: Name, ns: int)
    requires Group(ms, version, budget, name, ns).Ok?
    ensures forall data :: data in Group(ms, version, budget, name, ns).value ==> |data| <= budget
  {
    hide Group, SliceRecords, SerializeVersionEnd, RecordBytes;
    GroupParts(ms, version, budget, name, ns);
    var t, messages := Target(name, ns, budget), MutationMessages(ms, version, 0);
    var slices := Slices(t, messages, 0);
    GreedyFits(t, messages, 0);
    forall k | 0 <= k < |slices| ensures |SliceRecords(ms, version, t, slices, 0)[k]| <= budget {
      SliceBytes(ms, version, t, slices, k);
    }
  }

  /**
   Reading the records of a group in order gives exactly its mutations, at positions 0 to n - 1, and then one
   version end that counts them, whatever the budget was.
   */
  lemma GroupReads(ms: seq<Native>, version: int, budget: int, name: Name, ns: int) returns (bodies: seq<Body>)
    requires Group(ms, version, budget, name, ns).Ok?
    requires forall data :: data in Group(ms, version, budget, name, ns).value ==> |data| <= MAX_MESSAGE_BYTES
    ensures var records := Group(ms, version, budget, name, ns).value;
            && |bodies| == |records|
            && (forall k :: 0 <= k < |records| ==>
                  DeserializeRecord(records[k]) == Ok(Record(name, Some(ns), bodies[k])))
    ensures forall k :: 0 <= k < |bodies| - 1 ==> bodies[k].Batch?
    ensures |bodies| > 0 && bodies[|bodies| - 1] == VersionEnd(version, |ms|, Some(ns))
    ensures MutationsOf(bodies) == TaggedRun(ms, version, 0)
  {
    hide DeserializeRecord, Group, SerializeVersionEnd, SliceRecords;
    hide MutationsOf, SliceBodies, Slices, MutationMessages;
    GroupParts(ms, version, budget, name, ns);
    var t := Target(name, ns, budget);
    var slices := Slices(t, MutationMessages(ms, version, 0), 0);
    var run, end := TaggedRun(ms, version, 0), VersionEnd(version, |ms|, Some(ns));
    SliceRecordsRead(ms, version, t, slices, 0);
    VersionEndRoundTrips(version, |ms|, name, ns);
    SliceBodiesCover(run, slices, 0, end);
    bodies := SliceBodies(run, slices, 0) + [end];
    var records := Group(ms, version, budget, name, ns).value;
    forall k | 0 <= k < |records| ensures DeserializeRecord(records[k]) == Ok(Record(name, Some(ns), bodies[k])) {
      assert records[k] in records;
    }
    assert run[0..] == run;
  }
}
