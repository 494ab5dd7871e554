/** Record bytes to output values, with every reason for refusing them. */
module Deserializer {
  import opened Prelude
  import opened Messages
  import opened Serializer

  datatype VersionIndex = VersionIndex(fdbVersion: int, sequenceNo: int)
  datatype Mutation = Mutation(code: int, param1: bytes, param2: bytes, versionIndex: VersionIndex)
  datatype Body =
    | Single(mutation: Mutation)
    | Batch(mutations: seq<Mutation>)
    | VersionEnd(fdbVersion: int, totalMutations: int, bridgeTimestampNs: Option<int>)
  datatype Record = Record(streamName: Name, bridgeTimestampNs: Option<int>, body: Body)

  datatype Reason =
    | MalformedWire
    | NoRecordArm
    | NoMutationArm
    | MissingVersionIndex
    | TypeCodeOutOfRange
    | VersionOutOfRange
    | EmptyBatch
    | InconsistentBatch
  datatype DecodeError = DecodeError(reason: Reason, index: Option<nat>)

  function TimestampOf(t: Option<TimestampMsg>): Option<int> {
    match t
    case None => None
    case Some(x) => Some(x.seconds * NANOS + x.nanos)
  }

  function ReadMutation(m: MutationMsg, index: Option<nat>): Result<Mutation, DecodeError> {
    match m.versionIndex
    case None => Err(DecodeError(MissingVersionIndex, index))
    case Some(vi) =>
      var at := VersionIndex(vi.fdbVersion, vi.sequenceNo);
      if vi.fdbVersion > MAX_VERSION then Err(DecodeError(VersionOutOfRange, index))
      else match m.arm
        case NoMutation => Err(DecodeError(NoMutationArm, index))
        case ClearRange(c) => Ok(Mutation(CLEAR_RANGE, c.beginKey, c.endKey, at))
        case SingleKey(s) =>
          if !(0 <= s.mutationType <= MAX_TYPE_CODE) then Err(DecodeError(TypeCodeOutOfRange, index))
          else Ok(Mutation(s.mutationType, s.key, s.value, at))
  }

  /** The mutations from position `i` on, or the fault of the first that has one. */
  function ReadMutations(ms: seq<MutationMsg>, i: nat): (r: Result<seq<Mutation>, DecodeError>)
    requires i <= |ms|
    ensures r.Ok? ==> |r.value| == |ms| - i
    ensures r.Ok? ==> forall k :: 0 <= k < |ms| - i ==> ReadMutation(ms[i + k], Some(i + k)) == Ok(r.value[k])
    decreases |ms| - i
  {
    if i == |ms| then Ok([])
    else
      var m :- ReadMutation(ms[i], Some(i));
      var rest :- ReadMutations(ms, i + 1);
      Ok([m] + rest)
  }

  /** The first position from `i` on that does not continue the run the batch starts. */
  function FirstGap(ms: seq<Mutation>, i: nat): (r: Option<nat>)
    requires i <= |ms| && ms != []
    ensures r.None? <==> forall k :: i <= k < |ms| ==>
      ms[k].versionIndex == VersionIndex(ms[0].versionIndex.fdbVersion, ms[0].versionIndex.sequenceNo + k)
    decreases |ms| - i
  {
    if i == |ms| then None
    else if ms[i].versionIndex != VersionIndex(ms[0].versionIndex.fdbVersion, ms[0].versionIndex.sequenceNo + i)
    then Some(i)
    else FirstGap(ms, i + 1)
  }

  function ReadBatch(b: BatchMsg): Result<Body, DecodeError> {
    var ms :- ReadMutations(b.mutations, 0);
    if ms == [] then Err(DecodeError(EmptyBatch, None))
    else match FirstGap(ms, 0)
      case Some(i) => Err(DecodeError(InconsistentBatch, Some(i)))
      case None => Ok(Batch(ms))
  }

  function ReadBody(m: RecordMsg): Result<Body, DecodeError> {
    match m.arm
    case NoRecord => Err(DecodeError(NoRecordArm, None))
    case BatchRecord(b) => ReadBatch(b)
    case VersionEndRecord(e) =>
      if e.fdbVersion > MAX_VERSION then Err(DecodeError(VersionOutOfRange, None))
      else Ok(VersionEnd(e.fdbVersion, e.totalMutations, TimestampOf(e.bridgeTimestamp)))
    case MutationRecord(x) =>
      var mutation :- ReadMutation(x, None);
      Ok(Single(mutation))
  }

  function DeserializeRecord(data: bytes): Result<Record, DecodeError> {
    match ParseRecord(data)
    case None => Err(DecodeError(MalformedWire, None))
    case Some(m) =>
      var body :- ReadBody(m);
      Ok(Record(m.streamName, TimestampOf(m.bridgeTimestamp), body))
  }

  // ------------------------------------------------------------- round trip

  function Tagged(m: Native, version: int, sequenceNo: int): Mutation {
    Mutation(m.code, m.param1, m.param2, VersionIndex(version, sequenceNo))
  }

  function TaggedRun(ms: seq<Native>, version: int, first: int): (r: seq<Mutation>)
    ensures |r| == |ms| && forall i :: 0 <= i < |ms| ==> r[i] == Tagged(ms[i], version, first + i)
  {
    seq(|ms|, i requires 0 <= i < |ms| => Tagged(ms[i], version, first + i))
  }

  lemma TimestampReads(ns: TimestampNs)
    ensures TimestampOf(Some(Timestamp(ns))) == Some(ns)
  {
  }

  lemma ReadsBack(m: Checked, version: Version, sequenceNo: uint32, index: Option<nat>)
    ensures ReadMutation(MutationMessage(m, version, sequenceNo), index) == Ok(Tagged(m, version, sequenceNo))
  {
  }

  lemma {:induction false} ReadsRunBack(ms: seq<Checked>, version: Version, first: uint32, i: nat)
    requires i <= |ms| && (ms == [] || first + |ms| - 1 <= MAX_SEQUENCE_NO)
    ensures ReadMutations(MutationMessages(ms, version, first), i) == Ok(TaggedRun(ms, version, first)[i..])
    decreases |ms| - i
  {
    hide Tagged, MutationMessage, ReadMutation;
    var run := TaggedRun(ms, version, first);
    if i == |ms| {
      assert run[i..] == [];
    } else {
      ReadsBack(ms[i], version, first + i, Some(i));
      ReadsRunBack(ms, version, first, i + 1);
      assert run[i..] == [run[i]] + run[i + 1..];
    }
  }

  lemma ReadsBatchBack(ms: seq<Checked>, version: Version, first: uint32)
    requires ms != [] && first + |ms| - 1 <= MAX_SEQUENCE_NO
    ensures ReadBatch(BatchMsg(MutationMessages(ms, version, first))) == Ok(Batch(TaggedRun(ms, version, first)))
  {
    ReadsRunBack(ms, version, first, 0);
    var run := TaggedRun(ms, version, first);
    assert run[0..] == run;
  }

  /** Any envelope reads back with its name, its timestamp and what its body reads as. */
  lemma EnvelopeReads(name: Name, ns: TimestampNs, arm: RecordArm)
    ensures var x := Envelope(name, ns, arm);
            DeserializeRecord(EncodeRecord(x)) ==
            if |EncodeRecord(x)| > MAX_MESSAGE_BYTES then Err(DecodeError(MalformedWire, None))
            else match ReadBody(x)
                 case Ok(body) => Ok(Record(name, Some(ns), body))
                 case Err(e) => Err(e)
  {
    RecordRoundTrip(Envelope(name, ns, arm));
    TimestampReads(ns);
  }

  /** Reading a mutation record gives back the mutation under its version index. */
  lemma MutationRoundTrips(m: Native, version: int, sequenceNo: int, name: Name, ns: int)
    requires SerializeMutation(m, version, sequenceNo, name, ns).Ok?
    ensures var data := SerializeMutation(m, version, sequenceNo, name, ns).value;
            |data| <= MAX_MESSAGE_BYTES ==>
              DeserializeRecord(data) == Ok(Record(name, Some(ns), Single(Tagged(m, version, sequenceNo))))
  {
    var message := MutationMessage(m, version, sequenceNo);
    EnvelopeReads(name, ns, MutationRecord(message));
    ReadsBack(m, version, sequenceNo, None);
  }

  /** Reading a batch record gives back the run, element i at position first + i. */
  lemma {:induction false} BatchRoundTrips(ms: seq<Native>, version: int, first: int, name: Name, ns: int)
    requires SerializeBatch(ms, version, first, name, ns).Ok?
    ensures var data := SerializeBatch(ms, version, first, name, ns).value;
            |data| <= MAX_MESSAGE_BYTES ==>
              DeserializeRecord(data) == Ok(Record(name, Some(ns), Batch(TaggedRun(ms, version, first))))
  {
    NativesInRange(ms, first);
    EnvelopeReads(name, ns, BatchRecord(BatchMsg(MutationMessages(ms, version, first))));
    ReadsBatchBack(ms, version, first);
  }

  lemma VersionEndRoundTrips(version: int, total: int, name: Name, ns: int)
    requires SerializeVersionEnd(version, total, name, ns).Ok?
    ensures var data := SerializeVersionEnd(version, total, name, ns).value;
            |data| <= MAX_MESSAGE_BYTES ==>
              DeserializeRecord(data) == Ok(Record(name, Some(ns), VersionEnd(version, total, Some(ns))))
  {
    EnvelopeReads(name, ns, VersionEndMessage(version, total, name, ns).arm);
    TimestampReads(ns);
  }

  // ------------------------------------------------------------- truncation

  /** The bytes of some successful serialize call. */
  ghost predicate Serialized(data: bytes) {
    || (exists m, version, sequenceNo, name, ns :: SerializeMutation(m, version, sequenceNo, name, ns) == Ok(data))
    || (exists ms, version, first, name, ns :: SerializeBatch(ms, version, first, name, ns) == Ok(data))
    || (exists version, total, name, ns :: SerializeVersionEnd(version, total, name, ns) == Ok(data))
  }

  lemma SerializedIsRecord(data: bytes) returns (x: RecordMsg)
    requires Serialized(data)
    ensures data == EncodeRecord(x)
  {
    if m, version, sequenceNo, name, ns :| SerializeMutation(m, version, sequenceNo, name, ns) == Ok(data) {
      x := Envelope(name, ns, MutationRecord(MutationMessage(m, version, sequenceNo)));
    } else if ms, version, first, name, ns :| SerializeBatch(ms, version, first, name, ns) == Ok(data) {
      NativesInRange(ms, first);
      x := Envelope(name, ns, BatchRecord(BatchMsg(MutationMessages(ms, version, first))));
    } else {
      var version, total, name, ns :| SerializeVersionEnd(version, total, name, ns) == Ok(data);
      x := VersionEndMessage(version, total, name, ns);
    }
  }

  /** No proper prefix of a serialized record reads as a record. */
  lemma TruncatedIsRefused(data: bytes, k: nat)
    requires Serialized(data) && k < |data| <= MAX_MESSAGE_BYTES
    ensures var r := DeserializeRecord(data[..k]);
            r == Err(DecodeError(MalformedWire, None)) || r == Err(DecodeError(NoRecordArm, None))
  {
    var x := SerializedIsRecord(data);
    RecordTruncated(x, k);
  }

  // ---------------------------------------------------------- re-serializing

  function NativeOf(m: Mutation): Native {
    Native(m.code, m.param1, m.param2)
  }

  function NativesOf(ms: seq<Mutation>): (r: seq<Native>)
    ensures |r| == |ms| && forall i :: 0 <= i < |ms| ==> r[i] == NativeOf(ms[i])
  {
    seq(|ms|, i requires 0 <= i < |ms| => NativeOf(ms[i]))
  }

  /** Serialize what was read, under a name and time of the caller's. */
  function Reserialize(body: Body, name: Name, ns: int): Result<bytes, InputError>
    requires body.Single? || (body.Batch? && body.mutations != [])
  {
    match body
    case Single(m) => SerializeMutation(NativeOf(m), m.versionIndex.fdbVersion, m.versionIndex.sequenceNo, name, ns)
    case Batch(ms) =>
      SerializeBatch(NativesOf(ms), ms[0].versionIndex.fdbVersion, ms[0].versionIndex.sequenceNo, name, ns)
  }

  /** A read mutation is within the serializer's ranges. */
  predicate InRange(m: Mutation) {
    && 0 <= m.code <= MAX_TYPE_CODE
    && 0 <= m.versionIndex.fdbVersion <= MAX_VERSION
    && 0 <= m.versionIndex.sequenceNo <= MAX_SEQUENCE_NO
  }

  lemma ReadInRange(m: MutationMsg, index: Option<nat>)
    requires ReadMutation(m, index).Ok?
    ensures InRange(ReadMutation(m, index).value)
  {
  }

  lemma ReadBatchShape(b: BatchMsg)
    requires ReadBatch(b).Ok?
    ensures ReadBatch(b).value.Batch?
    ensures var ms := ReadBatch(b).value.mutations;
            && ms != []
            && (forall i :: 0 <= i < |ms| ==> InRange(ms[i]))
            && ms == TaggedRun(NativesOf(ms), ms[0].versionIndex.fdbVersion, ms[0].versionIndex.sequenceNo)
  {
    var ms := ReadBatch(b).value.mutations;
    forall i | 0 <= i < |ms| ensures InRange(ms[i]) {
      assert ReadMutation(b.mutations[0 + i], Some(0 + i)) == Ok(ms[i]);
      ReadInRange(b.mutations[i], Some(i));
    }
  }

  lemma ReserializeBatch(ms: seq<Mutation>, name: Name, ns: int)
    requires ms != [] && name != [] && 0 <= ns <= MAX_BRIDGE_TIMESTAMP_NS
    requires forall i :: 0 <= i < |ms| ==> InRange(ms[i])
    requires ms == TaggedRun(NativesOf(ms), ms[0].versionIndex.fdbVersion, ms[0].versionIndex.sequenceNo)
    ensures Reserialize(Batch(ms), name, ns).Ok?
    ensures var data := Reserialize(Batch(ms), name, ns).value;
            |data| <= MAX_MESSAGE_BYTES ==> DeserializeRecord(data) == Ok(Record(name, Some(ns), Batch(ms)))
  {
    var natives, version, first := NativesOf(ms), ms[0].versionIndex.fdbVersion, ms[0].versionIndex.sequenceNo;
    forall j | 0 <= j < |natives| ensures NativeFault(natives[j], first, j).None? {
      assert InRange(ms[j]) && ms[j] == Tagged(natives[j], version, first + j);
    }
    NativesPass(natives, first, 0);
    BatchRoundTrips(natives, version, first, name, ns);
  }

  /**
   Whatever bytes it came from, a mutation or batch that was read can be serialized again, and reads back equal.
   A single-key mutation of type 1 comes back from the clear-range arm.
   */
  lemma ReadCanBeReserialized(data: bytes, name: Name, ns: int)
    requires DeserializeRecord(data).Ok? && !DeserializeRecord(data).value.body.VersionEnd?
    requires name != [] && 0 <= ns <= MAX_BRIDGE_TIMESTAMP_NS
    ensures var body := DeserializeRecord(data).value.body;
            && (body.Batch? ==> body.mutations != [])
            && Reserialize(body, name, ns).Ok?
            && (|Reserialize(body, name, ns).value| <= MAX_MESSAGE_BYTES ==>
                DeserializeRecord(Reserialize(body, name, ns).value) == Ok(Record(name, Some(ns), body)))
  {
    var x := ParseRecord(data).value;
    match x.arm {
      case MutationRecord(m) =>
        ReadInRange(m, None);
        var read := ReadMutation(m, None).value;
        MutationRoundTrips(NativeOf(read), read.versionIndex.fdbVersion, read.versionIndex.sequenceNo, name, ns);
      case BatchRecord(b) =>
        ReadBatchShape(b);
        ReserializeBatch(ReadBatch(b).value.mutations, name, ns);
      case _ =>
    }
  }

  // ------------------------------------------------- what is refused, and why

  /** What is wrong with a message, by its fields alone. */
  predicate Lacks(m: MutationMsg, reason: Reason) {
    match reason
    case MissingVersionIndex => m.versionIndex.None?
    case VersionOutOfRange => m.versionIndex.Some? && m.versionIndex.value.fdbVersion > MAX_VERSION
    case NoMutationArm => m.arm.NoMutation?
    case TypeCodeOutOfRange => m.arm.SingleKey? && !(0 <= m.arm.single.mutationType <= 255)
    case _ => false
  }

  predicate Sound(m: MutationMsg) {
    && !Lacks(m, MissingVersionIndex) && !Lacks(m, VersionOutOfRange)
    && !Lacks(m, NoMutationArm) && !Lacks(m, TypeCodeOutOfRange)
  }

  /** The reasons come in this order, and the first that applies is given. */
  predicate RefusedFor(m: MutationMsg, reason: Reason) {
    && Lacks(m, reason)
    && (reason != MissingVersionIndex ==> !Lacks(m, MissingVersionIndex))
    && (reason == NoMutationArm || reason == TypeCodeOutOfRange ==> !Lacks(m, VersionOutOfRange))
    && (reason == TypeCodeOutOfRange ==> !Lacks(m, NoMutationArm))
  }

  /** The value holds what the fields say. */
  predicate Conveys(m: MutationMsg, v: Mutation) {
    && m.versionIndex.Some?
    && v.versionIndex.fdbVersion == m.versionIndex.value.fdbVersion
    && v.versionIndex.sequenceNo == m.versionIndex.value.sequenceNo
    && match m.arm
       case ClearRange(c) => v.code == 1 && v.param1 == c.beginKey && v.param2 == c.endKey
       case SingleKey(s) => v.code == s.mutationType && v.param1 == s.key && v.param2 == s.value
       case NoMutation => false
  }

  /** Element `i` has the version of the first and the `i`th sequence number after the first's. */
  predicate Continues(ms: seq<MutationMsg>, i: nat)
    requires i < |ms|
  {
    && ms[0].versionIndex.Some? && ms[i].versionIndex.Some?
    && var first, at := ms[0].versionIndex.value, ms[i].versionIndex.value;
    && at.fdbVersion == first.fdbVersion && at.sequenceNo == first.sequenceNo + i
  }

  lemma MutationReadsExactly(m: MutationMsg, index: Option<nat>)
    ensures var r := ReadMutation(m, index);
            && (r.Ok? <==> Sound(m))
            && (r.Ok? ==> Conveys(m, r.value))
            && (r.Err? ==> r.error.index == index && RefusedFor(m, r.error.reason))
  {
  }

  predicate AllSound(ms: seq<MutationMsg>) {
    forall k :: 0 <= k < |ms| ==> Sound(ms[k])
  }

  predicate AllConveyed(ms: seq<MutationMsg>, vs: seq<Mutation>) {
    |vs| == |ms| && forall k :: 0 <= k < |ms| ==> Conveys(ms[k], vs[k])
  }

  predicate AllContinue(ms: seq<MutationMsg>) {
    forall k :: 0 <= k < |ms| ==> Continues(ms, k)
  }

  /** The fault of the first element that has one. */
  ghost predicate FirstRefused(ms: seq<MutationMsg>, e: DecodeError) {
    && e.index.Some? && e.index.value < |ms| && RefusedFor(ms[e.index.value], e.reason)
    && AllSound(ms[..e.index.value])
  }

  lemma {:induction false} RunReadsExactly(ms: seq<MutationMsg>, i: nat)
    requires i <= |ms| && AllSound(ms[..i])
    ensures var r := ReadMutations(ms, i);
            && (r.Ok? <==> AllSound(ms))
            && (r.Ok? ==> AllConveyed(ms[i..], r.value))
            && (r.Err? ==> FirstRefused(ms, r.error))
    decreases |ms| - i
  {
    if i == |ms| {
      assert ms[..i] == ms;
    } else {
      MutationReadsExactly(ms[i], Some(i));
      if Sound(ms[i]) {
        assert ms[..i + 1] == ms[..i] + [ms[i]];
        RunReadsExactly(ms, i + 1);
      }
    }
  }

  /** The first gap is the first element that does not continue the run. */
  lemma {:induction false} FirstGapExactly(ms: seq<MutationMsg>, vs: seq<Mutation>, i: nat)
    requires ms != [] && i <= |ms| && AllConveyed(ms, vs)
    ensures match FirstGap(vs, i)
            case None => forall k :: i <= k < |ms| ==> Continues(ms, k)
            case Some(g) => i <= g < |ms| && !Continues(ms, g) && forall k :: i <= k < g ==> Continues(ms, k)
    decreases |ms| - i
  {
    if i < |ms| {
      assert Conveys(ms[0], vs[0]) && Conveys(ms[i], vs[i]);
      FirstGapExactly(ms, vs, i + 1);
    }
  }

  /** A batch is refused for its elements first, then for having none, then for the first that does not continue. */
  ghost predicate BatchRefusedFor(ms: seq<MutationMsg>, e: DecodeError) {
    if !AllSound(ms) then FirstRefused(ms, e)
    else if ms == [] then e == DecodeError(EmptyBatch, None)
    else && e.reason == InconsistentBatch && e.index.Some? && e.index.value < |ms|
         && !Continues(ms, e.index.value) && forall k :: 0 <= k < e.index.value ==> Continues(ms, k)
  }

  lemma BatchReadsExactly(b: BatchMsg)
    ensures var r, ms := ReadBatch(b), b.mutations;
            && (r.Ok? <==> ms != [] && AllSound(ms) && AllContinue(ms))
            && (r.Ok? ==> r.value.Batch? && AllConveyed(ms, r.value.mutations))
            && (r.Err? ==> BatchRefusedFor(ms, r.error))
  {
    var ms := b.mutations;
    RunReadsExactly(ms, 0);
    assert ms[0..] == ms;
    if AllSound(ms) && ms != [] {
      FirstGapExactly(ms, ReadMutations(ms, 0).value, 0);
    }
  }

  /** The time is the one the fields spell, whatever it is. */
  predicate Spells(t: Option<TimestampMsg>, ns: Option<int>) {
    t.Some? == ns.Some? && (t.Some? ==> ns.value == 1_000_000_000 * t.value.seconds + t.value.nanos)
  }

  predicate Readable(x: RecordMsg) {
    match x.arm
    case MutationRecord(m) => Sound(m)
    case BatchRecord(b) => b.mutations != [] && AllSound(b.mutations) && AllContinue(b.mutations)
    case VersionEndRecord(e) => e.fdbVersion <= MAX_VERSION
    case NoRecord => false
  }

  predicate RecordConveys(x: RecordMsg, r: Record) {
    && r.streamName == x.streamName && Spells(x.bridgeTimestamp, r.bridgeTimestampNs)
    && match x.arm
       case MutationRecord(m) => r.body.Single? && Conveys(m, r.body.mutation)
       case BatchRecord(b) => r.body.Batch? && AllConveyed(b.mutations, r.body.mutations)
       case VersionEndRecord(e) => && r.body.VersionEnd? && r.body.fdbVersion == e.fdbVersion
                                   && r.body.totalMutations == e.totalMutations
                                   && Spells(e.bridgeTimestamp, r.body.bridgeTimestampNs)
       case NoRecord => false
  }

  ghost predicate RecordRefusedFor(x: RecordMsg, e: DecodeError) {
    match x.arm
    case MutationRecord(m) => e.index == None && RefusedFor(m, e.reason)
    case BatchRecord(b) => BatchRefusedFor(b.mutations, e)
    case VersionEndRecord(_) => e == DecodeError(VersionOutOfRange, None)
    case NoRecord => e == DecodeError(NoRecordArm, None)
  }

  /**
   Exactly which parsed records are read, what they are read as, and why the others are refused: all by the fields of
   the message.
   */
  lemma RecordReadsExactly(data: bytes)
    ensures var r := DeserializeRecord(data);
            match ParseRecord(data)
            case None => r == Err(DecodeError(MalformedWire, None))
            case Some(x) =>
              && (r.Ok? <==> Readable(x))
              && (r.Ok? ==> RecordConveys(x, r.value))
              && (r.Err? ==> RecordRefusedFor(x, r.error))
  {
    hide ParseRecord, Sound, RefusedFor, Conveys, AllSound, AllContinue, AllConveyed, BatchRefusedFor;
    hide ReadMutation, ReadBatch;
    match ParseRecord(data)
    case None =>
    case Some(x) =>
      match x.arm {
        case MutationRecord(m) => MutationReadsExactly(m, None);
        case BatchRecord(b) => BatchReadsExactly(b);
        case _ =>
      }
  }

  /** So every message that fits is read exactly when its fields allow it. */
  lemma EncodedReadsExactly(x: RecordMsg)
    requires |EncodeRecord(x)| <= MAX_MESSAGE_BYTES
    ensures var r := DeserializeRecord(EncodeRecord(x));
            && (r.Ok? <==> Readable(x))
            && (r.Ok? ==> RecordConveys(x, r.value))
            && (r.Err? ==> RecordRefusedFor(x, r.error))
  {
    hide DeserializeRecord, ParseRecord, EncodeRecord, Readable, RecordConveys, RecordRefusedFor;
    RecordRoundTrip(x);
    RecordReadsExactly(EncodeRecord(x));
  }
}
