/**
 The messages of fdbkafka/cdc/v1/mutations.proto: what the runtime writes for a message, and what it reads from
 bytes. Reading follows the Encoding guide: a scalar or bytes field keeps its last value, an embedded message is
 merged, a repeated one appended, a oneof keeps its last arm, and a record of an unknown number or of another
 wire type is skipped.
 */
module Messages {
  import opened Prelude
  import opened WireFormat
  import Utf8

  type Name = Utf8.Text

  datatype VersionIndexMsg = VersionIndexMsg(fdbVersion: uint64, sequenceNo: uint32)
  datatype TimestampMsg = TimestampMsg(seconds: int64, nanos: int32)
  datatype SingleKeyMsg = SingleKeyMsg(key: bytes, value: bytes, mutationType: int32)
  datatype ClearRangeMsg = ClearRangeMsg(beginKey: bytes, endKey: bytes)
  datatype MutationArm = NoMutation | SingleKey(single: SingleKeyMsg) | ClearRange(clear: ClearRangeMsg)
  datatype MutationMsg = MutationMsg(versionIndex: Option<VersionIndexMsg>, arm: MutationArm)
  datatype BatchMsg = BatchMsg(mutations: seq<MutationMsg>)
  datatype VersionEndMsg =
    VersionEndMsg(fdbVersion: uint64, totalMutations: uint32, bridgeTimestamp: Option<TimestampMsg>)
  datatype RecordArm =
    | NoRecord
    | MutationRecord(mutation: MutationMsg)
    | VersionEndRecord(versionEnd: VersionEndMsg)
    | BatchRecord(batch: BatchMsg)
  datatype RecordMsg = RecordMsg(streamName: Name, bridgeTimestamp: Option<TimestampMsg>, arm: RecordArm)

  /** A serialized message is at most 2 GiB - 1 long; the runtime parses no longer buffer. */
  const MAX_MESSAGE_BYTES := 0x7FFF_FFFF

  const TAG_BATCH := 5
  const TAG_MUTATIONS := 1

  // ---------------------------------------------------------------- writing

  /** Two's complement in 64 bits, as int32, int64 and enum fields are written. */
  function ToWire(x: int64): uint64 {
    if x < 0 then x + 0x1_0000_0000_0000_0000 else x
  }

  function OptVarint(num: nat, v: uint64): seq<Written> {
    if v == 0 then [] else [VarintField(num, v)]
  }

  function OptLen(num: nat, s: bytes): seq<Written> {
    if s == [] then [] else [LenField(num, s)]
  }

  function IndexFields(x: VersionIndexMsg): seq<Written> {
    OptVarint(1, x.fdbVersion) + OptVarint(2, x.sequenceNo)
  }

  function TimestampFields(x: TimestampMsg): seq<Written> {
    OptVarint(1, ToWire(x.seconds)) + OptVarint(2, ToWire(x.nanos))
  }

  function SingleFields(x: SingleKeyMsg): seq<Written> {
    OptLen(1, x.key) + OptLen(2, x.value) + OptVarint(3, ToWire(x.mutationType))
  }

  function ClearFields(x: ClearRangeMsg): seq<Written> {
    OptLen(1, x.beginKey) + OptLen(2, x.endKey)
  }

  /** A present embedded message is written even when its own encoding is empty. */
  function SubIndex(x: Option<VersionIndexMsg>): seq<Written> {
    if x.None? then [] else [LenField(1, EncodeFields(IndexFields(x.value)))]
  }

  function SubTimestamp(num: nat, x: Option<TimestampMsg>): seq<Written> {
    if x.None? then [] else [LenField(num, EncodeFields(TimestampFields(x.value)))]
  }

  function MutationArmFields(x: MutationArm): seq<Written> {
    match x
    case NoMutation => []
    case SingleKey(s) => [LenField(2, EncodeFields(SingleFields(s)))]
    case ClearRange(c) => [LenField(3, EncodeFields(ClearFields(c)))]
  }

  function MutationFields(x: MutationMsg): seq<Written> {
    SubIndex(x.versionIndex) + MutationArmFields(x.arm)
  }

  function EncodeMutation(x: MutationMsg): bytes {
    EncodeFields(MutationFields(x))
  }

  function BatchFields(ms: seq<MutationMsg>): (fs: seq<Written>)
    ensures |fs| == |ms|
    ensures forall i :: 0 <= i < |ms| ==> fs[i] == LenField(TAG_MUTATIONS, EncodeMutation(ms[i]))
  {
    if ms == [] then [] else [LenField(TAG_MUTATIONS, EncodeMutation(ms[0]))] + BatchFields(ms[1..])
  }

  function EncodeBatch(ms: seq<MutationMsg>): bytes {
    EncodeFields(BatchFields(ms))
  }

  function VersionEndFields(x: VersionEndMsg): seq<Written> {
    OptVarint(1, x.fdbVersion) + OptVarint(2, x.totalMutations) + SubTimestamp(3, x.bridgeTimestamp)
  }

  function RecordArmFields(x: RecordArm): seq<Written> {
    match x
    case NoRecord => []
    case MutationRecord(m) => [LenField(3, EncodeMutation(m))]
    case VersionEndRecord(e) => [LenField(4, EncodeFields(VersionEndFields(e)))]
    case BatchRecord(b) => [LenField(TAG_BATCH, EncodeBatch(b.mutations))]
  }

  function RecordFields(x: RecordMsg): seq<Written> {
    OptLen(1, x.streamName) + SubTimestamp(2, x.bridgeTimestamp) + RecordArmFields(x.arm)
  }

  function EncodeRecord(x: RecordMsg): bytes {
    EncodeFields(RecordFields(x))
  }

  // ---------------------------------------------------------------- reading

  function FromWire64(v: uint64): int64 {
    if v < 0x8000_0000_0000_0000 then v else v - 0x1_0000_0000_0000_0000
  }

  function FromWireU32(v: uint64): uint32 {
    v % 0x1_0000_0000
  }

  function FromWire32(v: uint64): int32 {
    var low := v % 0x1_0000_0000;
    if low < 0x8000_0000 then low else low - 0x1_0000_0000
  }

  /** Apply one record after another; None as soon as one is malformed. */
  function Fold<M>(step: (M, Field) -> Option<M>, m: M, fs: seq<Field>): Option<M> {
    if fs == [] then Some(m)
    else match step(m, fs[0])
      case None => None
      case Some(next) => Fold(step, next, fs[1..])
  }

  /** Parse `b` into an existing message. */
  function Merge<M>(step: (M, Field) -> Option<M>, m: M, b: bytes): Option<M> {
    match ParseFields(b)
    case None => None
    case Some(fs) => Fold(step, m, fs)
  }

  const EMPTY_INDEX := VersionIndexMsg(0, 0)
  const EMPTY_TIMESTAMP := TimestampMsg(0, 0)
  const EMPTY_SINGLE := SingleKeyMsg([], [], 0)
  const EMPTY_CLEAR := ClearRangeMsg([], [])
  const EMPTY_MUTATION := MutationMsg(None, NoMutation)
  const EMPTY_BATCH := BatchMsg([])
  const EMPTY_VERSION_END := VersionEndMsg(0, 0, None)
  const EMPTY_RECORD := RecordMsg([], None, NoRecord)

  function OrElse<M>(m: Option<M>, empty: M): M {
    if m.Some? then m.value else empty
  }

  function IndexStep(m: VersionIndexMsg, f: Field): Option<VersionIndexMsg> {
    match f
    case VarintField(1, v) => Some(m.(fdbVersion := v))
    case VarintField(2, v) => Some(m.(sequenceNo := FromWireU32(v)))
    case _ => Some(m)
  }

  function TimestampStep(m: TimestampMsg, f: Field): Option<TimestampMsg> {
    match f
    case VarintField(1, v) => Some(m.(seconds := FromWire64(v)))
    case VarintField(2, v) => Some(m.(nanos := FromWire32(v)))
    case _ => Some(m)
  }

  function SingleStep(m: SingleKeyMsg, f: Field): Option<SingleKeyMsg> {
    match f
    case LenField(1, p) => Some(m.(key := p))
    case LenField(2, p) => Some(m.(value := p))
    case VarintField(3, v) => Some(m.(mutationType := FromWire32(v)))
    case _ => Some(m)
  }

  function ClearStep(m: ClearRangeMsg, f: Field): Option<ClearRangeMsg> {
    match f
    case LenField(1, p) => Some(m.(beginKey := p))
    case LenField(2, p) => Some(m.(endKey := p))
    case _ => Some(m)
  }

  function MutationStep(m: MutationMsg, f: Field): Option<MutationMsg> {
    match f
    case LenField(1, p) =>
      (match Merge(IndexStep, OrElse(m.versionIndex, EMPTY_INDEX), p)
       case None => None
       case Some(i) => Some(m.(versionIndex := Some(i))))
    case LenField(2, p) =>
      (match Merge(SingleStep, if m.arm.SingleKey? then m.arm.single else EMPTY_SINGLE, p)
       case None => None
       case Some(s) => Some(m.(arm := SingleKey(s))))
    case LenField(3, p) =>
      (match Merge(ClearStep, if m.arm.ClearRange? then m.arm.clear else EMPTY_CLEAR, p)
       case None => None
       case Some(c) => Some(m.(arm := ClearRange(c))))
    case _ => Some(m)
  }

  function BatchStep(m: BatchMsg, f: Field): Option<BatchMsg> {
    match f
    case LenField(1, p) =>
      (match Merge(MutationStep, EMPTY_MUTATION, p)
       case None => None
       case Some(x) => Some(BatchMsg(m.mutations + [x])))
    case _ => Some(m)
  }

  function VersionEndStep(m: VersionEndMsg, f: Field): Option<VersionEndMsg> {
    match f
    case VarintField(1, v) => Some(m.(fdbVersion := v))
    case VarintField(2, v) => Some(m.(totalMutations := FromWireU32(v)))
    case LenField(3, p) =>
      (match Merge(TimestampStep, OrElse(m.bridgeTimestamp, EMPTY_TIMESTAMP), p)
       case None => None
       case Some(t) => Some(m.(bridgeTimestamp := Some(t))))
    case _ => Some(m)
  }

  function RecordStep(m: RecordMsg, f: Field): Option<RecordMsg> {
    match f
    case LenField(1, p) =>
      if Utf8.Valid(p) then Some(m.(streamName := p)) else None
    case LenField(2, p) =>
      (match Merge(TimestampStep, OrElse(m.bridgeTimestamp, EMPTY_TIMESTAMP), p)
       case None => None
       case Some(t) => Some(m.(bridgeTimestamp := Some(t))))
    case LenField(3, p) =>
      (match Merge(MutationStep, if m.arm.MutationRecord? then m.arm.mutation else EMPTY_MUTATION, p)
       case None => None
       case Some(x) => Some(m.(arm := MutationRecord(x))))
    case LenField(4, p) =>
      (match Merge(VersionEndStep, if m.arm.VersionEndRecord? then m.arm.versionEnd else EMPTY_VERSION_END, p)
       case None => None
       case Some(x) => Some(m.(arm := VersionEndRecord(x))))
    case LenField(5, p) =>
      (match Merge(BatchStep, if m.arm.BatchRecord? then m.arm.batch else EMPTY_BATCH, p)
       case None => None
       case Some(x) => Some(m.(arm := BatchRecord(x))))
    case _ => Some(m)
  }

  function ParseRecord(b: bytes): Option<RecordMsg> {
    if |b| > MAX_MESSAGE_BYTES then None else Merge(RecordStep, EMPTY_RECORD, b)
  }

  // ------------------------------------------------------------- round trip

  lemma {:induction false} FoldAppend<M>(step: (M, Field) -> Option<M>, m: M, a: seq<Field>, b: seq<Field>)
    ensures Fold(step, m, a + b)
         == match Fold(step, m, a) case None => None case Some(next) => Fold(step, next, b)
  {
    if a == [] {
      assert a + b == b;
    } else {
      assert (a + b)[1..] == a[1..] + b;
      if step(m, a[0]).Some? {
        FoldAppend(step, step(m, a[0]).value, a[1..], b);
      }
    }
  }

  lemma FoldOne<M>(step: (M, Field) -> Option<M>, m: M, f: Field)
    ensures Fold(step, m, [f]) == step(m, f)
  {
    assert [f][1..] == [];
  }

  predicate Numbered(fs: seq<Field>) {
    forall i :: 0 <= i < |fs| ==> 1 <= fs[i].num < 16
  }

  /** A payload is never longer than the message around it. */
  lemma {:induction false} PayloadWithin(fs: seq<Written>, i: nat)
    requires i < |fs| && fs[i].LenField?
    ensures |fs[i].payload| < |EncodeFields(fs)|
  {
    if i > 0 {
      PayloadWithin(fs[1..], i - 1);
    }
  }

  lemma SmallWritable(fs: seq<Written>)
    requires Numbered(fs) && |EncodeFields(fs)| <= MAX_MESSAGE_BYTES
    ensures AllWritable(fs)
  {
    forall i | 0 <= i < |fs| ensures Writable(fs[i]) {
      if fs[i].LenField? {
        PayloadWithin(fs, i);
      }
    }
  }

  /** Reading written records back is folding over them. */
  lemma MergeWritten<M>(step: (M, Field) -> Option<M>, m: M, fs: seq<Written>)
    requires Numbered(fs) && |EncodeFields(fs)| <= MAX_MESSAGE_BYTES
    ensures Merge(step, m, EncodeFields(fs)) == Fold(step, m, fs)
  {
    SmallWritable(fs);
    FieldsRoundTrip(fs);
  }

  lemma FoldOptVarint<M>(step: (M, Field) -> Option<M>, m: M, num: nat, v: uint64)
    ensures Fold(step, m, OptVarint(num, v)) == if v == 0 then Some(m) else step(m, VarintField(num, v))
  {
    FoldOne(step, m, VarintField(num, v));
  }

  lemma FoldOptLen<M>(step: (M, Field) -> Option<M>, m: M, num: nat, s: bytes)
    ensures Fold(step, m, OptLen(num, s)) == if s == [] then Some(m) else step(m, LenField(num, s))
  {
    FoldOne(step, m, LenField(num, s));
  }

  lemma WireRoundTrip(x: int64)
    ensures FromWire64(ToWire(x)) == x
    ensures -0x8000_0000 <= x < 0x8000_0000 ==> FromWire32(ToWire(x)) == x
    ensures 0 <= x < 0x1_0000_0000 ==> FromWireU32(x) == x
  {
  }

  lemma IndexRoundTrip(x: VersionIndexMsg)
    requires |EncodeFields(IndexFields(x))| <= MAX_MESSAGE_BYTES
    ensures Merge(IndexStep, EMPTY_INDEX, EncodeFields(IndexFields(x))) == Some(x)
  {
    MergeWritten(IndexStep, EMPTY_INDEX, IndexFields(x));
    FoldAppend(IndexStep, EMPTY_INDEX, OptVarint(1, x.fdbVersion), OptVarint(2, x.sequenceNo));
    FoldOptVarint(IndexStep, EMPTY_INDEX, 1, x.fdbVersion);
    FoldOptVarint(IndexStep, VersionIndexMsg(x.fdbVersion, 0), 2, x.sequenceNo);
  }

  lemma TimestampRoundTrip(x: TimestampMsg)
    requires |EncodeFields(TimestampFields(x))| <= MAX_MESSAGE_BYTES
    ensures Merge(TimestampStep, EMPTY_TIMESTAMP, EncodeFields(TimestampFields(x))) == Some(x)
  {
    var s, n := ToWire(x.seconds), ToWire(x.nanos);
    MergeWritten(TimestampStep, EMPTY_TIMESTAMP, TimestampFields(x));
    FoldAppend(TimestampStep, EMPTY_TIMESTAMP, OptVarint(1, s), OptVarint(2, n));
    FoldOptVarint(TimestampStep, EMPTY_TIMESTAMP, 1, s);
    FoldOptVarint(TimestampStep, TimestampMsg(x.seconds, 0), 2, n);
    WireRoundTrip(x.seconds);
    WireRoundTrip(x.nanos);
  }

  lemma SingleRoundTrip(x: SingleKeyMsg)
    requires |EncodeFields(SingleFields(x))| <= MAX_MESSAGE_BYTES
    ensures Merge(SingleStep, EMPTY_SINGLE, EncodeFields(SingleFields(x))) == Some(x)
  {
    var t := ToWire(x.mutationType);
    MergeWritten(SingleStep, EMPTY_SINGLE, SingleFields(x));
    FoldAppend(SingleStep, EMPTY_SINGLE, OptLen(1, x.key) + OptLen(2, x.value), OptVarint(3, t));
    FoldAppend(SingleStep, EMPTY_SINGLE, OptLen(1, x.key), OptLen(2, x.value));
    FoldOptLen(SingleStep, EMPTY_SINGLE, 1, x.key);
    FoldOptLen(SingleStep, SingleKeyMsg(x.key, [], 0), 2, x.value);
    FoldOptVarint(SingleStep, SingleKeyMsg(x.key, x.value, 0), 3, t);
    WireRoundTrip(x.mutationType);
  }

  lemma ClearRoundTrip(x: ClearRangeMsg)
    requires |EncodeFields(ClearFields(x))| <= MAX_MESSAGE_BYTES
    ensures Merge(ClearStep, EMPTY_CLEAR, EncodeFields(ClearFields(x))) == Some(x)
  {
    MergeWritten(ClearStep, EMPTY_CLEAR, ClearFields(x));
    FoldAppend(ClearStep, EMPTY_CLEAR, OptLen(1, x.beginKey), OptLen(2, x.endKey));
    FoldOptLen(ClearStep, EMPTY_CLEAR, 1, x.beginKey);
    FoldOptLen(ClearStep, ClearRangeMsg(x.beginKey, []), 2, x.endKey);
  }

  lemma FoldSubIndex(x: Option<VersionIndexMsg>)
    requires |EncodeFields(SubIndex(x))| <= MAX_MESSAGE_BYTES
    ensures Fold(MutationStep, EMPTY_MUTATION, SubIndex(x)) == Some(MutationMsg(x, NoMutation))
  {
    if x.Some? {
      PayloadWithin(SubIndex(x), 0);
      IndexRoundTrip(x.value);
      FoldOne(MutationStep, EMPTY_MUTATION, SubIndex(x)[0]);
    }
  }

  lemma FoldMutationArm(m: MutationMsg, x: MutationArm)
    requires m.arm.NoMutation? && |EncodeFields(MutationArmFields(x))| <= MAX_MESSAGE_BYTES
    ensures Fold(MutationStep, m, MutationArmFields(x)) == Some(m.(arm := x))
  {
    if !x.NoMutation? {
      PayloadWithin(MutationArmFields(x), 0);
      FoldOne(MutationStep, m, MutationArmFields(x)[0]);
      match x {
        case SingleKey(s) => SingleRoundTrip(s);
        case ClearRange(c) => ClearRoundTrip(c);
      }
    }
  }

  /** Parsing undoes writing, for every mutation message. */
  lemma MutationRoundTrip(x: MutationMsg)
    requires |EncodeMutation(x)| <= MAX_MESSAGE_BYTES
    ensures Merge(MutationStep, EMPTY_MUTATION, EncodeMutation(x)) == Some(x)
  {
    MergeWritten(MutationStep, EMPTY_MUTATION, MutationFields(x));
    var a, b := SubIndex(x.versionIndex), MutationArmFields(x.arm);
    EncodeFieldsAppend(a, b);
    FoldAppend(MutationStep, EMPTY_MUTATION, a, b);
    FoldSubIndex(x.versionIndex);
    FoldMutationArm(MutationMsg(x.versionIndex, NoMutation), x.arm);
  }

  lemma BatchStepAppends(done: seq<MutationMsg>, x: MutationMsg)
    requires |EncodeMutation(x)| <= MAX_MESSAGE_BYTES
    ensures BatchStep(BatchMsg(done), LenField(TAG_MUTATIONS, EncodeMutation(x))) == Some(BatchMsg(done + [x]))
  {
    hide ParseFields;
    MutationRoundTrip(x);
  }

  lemma BatchHead(ms: seq<MutationMsg>)
    requires ms != []
    ensures |EncodeMutation(ms[0])| < |EncodeBatch(ms)| && |EncodeBatch(ms[1..])| < |EncodeBatch(ms)|
    ensures BatchFields(ms)[1..] == BatchFields(ms[1..])
  {
    PayloadWithin(BatchFields(ms), 0);
  }

  lemma {:induction false} FoldBatch(done: seq<MutationMsg>, ms: seq<MutationMsg>)
    requires |EncodeBatch(ms)| <= MAX_MESSAGE_BYTES
    ensures Fold(BatchStep, BatchMsg(done), BatchFields(ms)) == Some(BatchMsg(done + ms))
    decreases |ms|
  {
    hide BatchStep, EncodeFields, EncodeMutation;
    if ms == [] {
      assert done + ms == done;
    } else {
      BatchHead(ms);
      BatchStepAppends(done, ms[0]);
      FoldBatch(done + [ms[0]], ms[1..]);
      assert done + [ms[0]] + ms[1..] == done + ms;
    }
  }

  lemma BatchRoundTrip(x: BatchMsg)
    requires |EncodeBatch(x.mutations)| <= MAX_MESSAGE_BYTES
    ensures Merge(BatchStep, EMPTY_BATCH, EncodeBatch(x.mutations)) == Some(x)
  {
    MergeWritten(BatchStep, EMPTY_BATCH, BatchFields(x.mutations));
    FoldBatch([], x.mutations);
    assert [] + x.mutations == x.mutations;
  }

  lemma FoldSubTimestamp(m: VersionEndMsg, x: Option<TimestampMsg>)
    requires m.bridgeTimestamp.None? && |EncodeFields(SubTimestamp(3, x))| <= MAX_MESSAGE_BYTES
    ensures Fold(VersionEndStep, m, SubTimestamp(3, x)) == Some(m.(bridgeTimestamp := x))
  {
    if x.Some? {
      PayloadWithin(SubTimestamp(3, x), 0);
      TimestampRoundTrip(x.value);
      FoldOne(VersionEndStep, m, SubTimestamp(3, x)[0]);
    }
  }

  lemma VersionEndRoundTrip(x: VersionEndMsg)
    requires |EncodeFields(VersionEndFields(x))| <= MAX_MESSAGE_BYTES
    ensures Merge(VersionEndStep, EMPTY_VERSION_END, EncodeFields(VersionEndFields(x))) == Some(x)
  {
    hide ParseFields;
    var a, b, c := OptVarint(1, x.fdbVersion), OptVarint(2, x.totalMutations), SubTimestamp(3, x.bridgeTimestamp);
    MergeWritten(VersionEndStep, EMPTY_VERSION_END, VersionEndFields(x));
    FoldAppend(VersionEndStep, EMPTY_VERSION_END, a + b, c);
    FoldAppend(VersionEndStep, EMPTY_VERSION_END, a, b);
    FoldOptVarint(VersionEndStep, EMPTY_VERSION_END, 1, x.fdbVersion);
    FoldOptVarint(VersionEndStep, VersionEndMsg(x.fdbVersion, 0, None), 2, x.totalMutations);
    EncodeFieldsAppend(a + b, c);
    FoldSubTimestamp(VersionEndMsg(x.fdbVersion, x.totalMutations, None), x.bridgeTimestamp);
  }

  lemma FoldRecordHead(x: RecordMsg)
    requires |EncodeFields(SubTimestamp(2, x.bridgeTimestamp))| <= MAX_MESSAGE_BYTES
    ensures Fold(RecordStep, EMPTY_RECORD, OptLen(1, x.streamName) + SubTimestamp(2, x.bridgeTimestamp))
         == Some(RecordMsg(x.streamName, x.bridgeTimestamp, NoRecord))
  {
    var a, b := OptLen(1, x.streamName), SubTimestamp(2, x.bridgeTimestamp);
    FoldAppend(RecordStep, EMPTY_RECORD, a, b);
    FoldOptLen(RecordStep, EMPTY_RECORD, 1, x.streamName);
    if x.bridgeTimestamp.Some? {
      PayloadWithin(b, 0);
      TimestampRoundTrip(x.bridgeTimestamp.value);
      FoldOne(RecordStep, RecordMsg(x.streamName, None, NoRecord), b[0]);
    }
  }

  lemma FoldRecordArm(m: RecordMsg, x: RecordArm)
    requires m.arm.NoRecord? && |EncodeFields(RecordArmFields(x))| <= MAX_MESSAGE_BYTES
    ensures Fold(RecordStep, m, RecordArmFields(x)) == Some(m.(arm := x))
  {
    hide ParseFields;
    if !x.NoRecord? {
      PayloadWithin(RecordArmFields(x), 0);
      FoldOne(RecordStep, m, RecordArmFields(x)[0]);
      match x {
        case MutationRecord(y) => MutationRoundTrip(y);
        case VersionEndRecord(y) => VersionEndRoundTrip(y);
        case BatchRecord(y) => BatchRoundTrip(y);
      }
    }
  }

  lemma FoldRecord(x: RecordMsg)
    requires |EncodeRecord(x)| <= MAX_MESSAGE_BYTES
    ensures Fold(RecordStep, EMPTY_RECORD, RecordFields(x)) == Some(x)
  {
    hide RecordStep, EncodeField, RecordArmFields;
    var t := SubTimestamp(2, x.bridgeTimestamp);
    var a, b := OptLen(1, x.streamName) + t, RecordArmFields(x.arm);
    EncodeFieldsAppend(a, b);
    EncodeFieldsAppend(OptLen(1, x.streamName), t);
    FoldAppend(RecordStep, EMPTY_RECORD, a, b);
    FoldRecordHead(x);
    FoldRecordArm(RecordMsg(x.streamName, x.bridgeTimestamp, NoRecord), x.arm);
  }

  /** Parsing undoes writing for every record message the format can hold, and fails on every other. */
  lemma RecordRoundTrip(x: RecordMsg)
    ensures ParseRecord(EncodeRecord(x)) == if |EncodeRecord(x)| <= MAX_MESSAGE_BYTES then Some(x) else None
  {
    hide Fold, EncodeFields, ParseFields;
    if |EncodeRecord(x)| <= MAX_MESSAGE_BYTES {
      FoldRecord(x);
      MergeWritten(RecordStep, EMPTY_RECORD, RecordFields(x));
    }
  }

  // ------------------------------------------------------------- truncation

  /** Only the record of a body sets a body. */
  lemma {:induction false} FoldKeepsNoArm(m: RecordMsg, fs: seq<Field>)
    requires m.arm.NoRecord? && forall i :: 0 <= i < |fs| ==> fs[i].num < 3
    ensures var r := Fold(RecordStep, m, fs); r.Some? ==> r.value.arm.NoRecord?
    decreases |fs|
  {
    if fs != [] && RecordStep(m, fs[0]).Some? {
      FoldKeepsNoArm(RecordStep(m, fs[0]).value, fs[1..]);
    }
  }

  /** The body is the last record written. */
  lemma BodyIsLast(x: RecordMsg, n: nat)
    requires n < |RecordFields(x)|
    ensures forall i :: 0 <= i < n ==> RecordFields(x)[..n][i].num < 3
  {
  }

  /** A proper prefix of a record does not parse, or parses to a record without a body. */
  lemma {:induction false} RecordTruncated(x: RecordMsg, k: nat)
    requires k < |EncodeRecord(x)| <= MAX_MESSAGE_BYTES
    ensures var r := ParseRecord(EncodeRecord(x)[..k]); r.None? || r.value.arm.NoRecord?
  {
    var b := EncodeRecord(x)[..k];
    LostRecordFields(x, k);
    var r := ParseFields(b);
    if r.Some? {
      BodyIsLast(x, |r.value|);
      FoldKeepsNoArm(EMPTY_RECORD, r.value);
    }
  }

  lemma RecordNumbered(x: RecordMsg)
    ensures Numbered(RecordFields(x))
  {
  }

  lemma LostRecordFields(x: RecordMsg, k: nat)
    requires k < |EncodeRecord(x)| <= MAX_MESSAGE_BYTES
    ensures LostRecords(RecordFields(x), ParseFields(EncodeRecord(x)[..k]))
  {
    hide ParseFields, EncodeFields, RecordFields, LostRecords;
    RecordNumbered(x);
    SmallWritable(RecordFields(x));
    FieldsTruncated(RecordFields(x), k);
  }
}
