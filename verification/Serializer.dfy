/** Native CDC mutations to record bytes: input checks, message construction and the three serialize functions. */
module Serializer {
  import opened Prelude
  import opened Messages

  const MAX_TYPE_CODE := 255
  const MAX_VERSION := 0x7FFF_FFFF_FFFF_FFFF
  const MAX_SEQUENCE_NO := 0xFFFF_FFFF
  const MAX_TOTAL_MUTATIONS := 0xFFFF_FFFF
  const MAX_BRIDGE_TIMESTAMP_NS := 253_402_300_799_999_999_999
  const NANOS := 1_000_000_000
  const CLEAR_RANGE := 1

  /** A native mutation as the binding delivers it. */
  datatype Native = Native(code: int, param1: bytes, param2: bytes)

  /** One whose type code has been checked. */
  type Checked = n: Native | 0 <= n.code <= MAX_TYPE_CODE witness Native(0, [], [])

  type Version = v: int | 0 <= v <= MAX_VERSION
  type TimestampNs = t: int | 0 <= t <= MAX_BRIDGE_TIMESTAMP_NS

  datatype InputError =
    | OutOfRange(field: string, index: Option<nat>)
    | TooLarge(index: Option<nat>, recordBytes: nat, maxRecordBytes: int)

  datatype Check = Pass | Fail(error: InputError) {
    predicate IsFailure() {
      Fail?
    }

    function PropagateFailure<U>(): Result<U, InputError>
      requires Fail?
    {
      Err(error)
    }
  }

  // ----------------------------------------------------------------- checks

  function Need(condition: bool, field: string, index: Option<nat>): Check {
    if condition then Pass else Fail(OutOfRange(field, index))
  }

  function CheckVersion(v: int): Check {
    Need(0 <= v <= MAX_VERSION, "fdb_version", None)
  }

  function CheckSequenceNo(v: int, field: string, index: Option<nat>): Check {
    Need(0 <= v <= MAX_SEQUENCE_NO, field, index)
  }

  /** `stream_name`, then `bridge_timestamp_ns`. */
  function CheckEnvelope(name: Name, ns: int): Check {
    if name == [] then Fail(OutOfRange("stream_name", None))
    else Need(0 <= ns <= MAX_BRIDGE_TIMESTAMP_NS, "bridge_timestamp_ns", None)
  }

  function CheckNative(m: Native, index: Option<nat>): Result<Checked, InputError> {
    if 0 <= m.code <= MAX_TYPE_CODE then Ok(m) else Err(OutOfRange("type", index))
  }

  /** What is wrong with element `i`, if anything: the position it is assigned, then the mutation. */
  function NativeFault(m: Native, first: int, i: nat): Option<InputError> {
    if !(0 <= first + i <= MAX_SEQUENCE_NO) then Some(OutOfRange("sequence_no", Some(i)))
    else if !(0 <= m.code <= MAX_TYPE_CODE) then Some(OutOfRange("type", Some(i)))
    else None
  }

  /** The elements from `i` on, or the fault of the first faulty one. */
  function CheckNatives(ms: seq<Native>, first: int, i: nat): (r: Result<seq<Checked>, InputError>)
    requires i <= |ms|
    ensures r.Ok? ==> r.value == ms[i..]
    decreases |ms| - i
  {
    if i == |ms| then Ok([])
    else match NativeFault(ms[i], first, i)
      case Some(e) => Err(e)
      case None =>
        var rest :- CheckNatives(ms, first, i + 1);
        Ok([ms[i]] + rest)
  }

  /** `_checks.natives`: append one checked mutation after another, stop at the first fault. */
  method Natives(ms: seq<Native>, first: int) returns (r: Result<seq<Checked>, InputError>)
    ensures r == CheckNatives(ms, first, 0)
  {
    var checked: seq<Checked> := [];
    var i := 0;
    while i < |ms|
      invariant 0 <= i <= |ms|
      invariant checked == ms[..i]
      invariant var rest, all := CheckNatives(ms, first, i), CheckNatives(ms, first, 0);
                all.Ok? == rest.Ok? && (rest.Err? ==> all == rest)
    {
      var sequenceNo := first + i;
      if !(0 <= sequenceNo <= MAX_SEQUENCE_NO) {
        return Err(OutOfRange("sequence_no", Some(i)));
      }
      var native := CheckNative(ms[i], Some(i));
      if native.Err? {
        return Err(native.error);
      }
      checked := checked + [native.value];
      i := i + 1;
    }
    assert ms[0..] == checked;
    return Ok(checked);
  }

  /** A whole sequence passes exactly when every element does. */
  lemma {:induction false} NativesPass(ms: seq<Native>, first: int, i: nat)
    requires i <= |ms|
    ensures CheckNatives(ms, first, i).Ok? <==> forall j :: i <= j < |ms| ==> NativeFault(ms[j], first, j).None?
    ensures CheckNatives(ms, first, i).Err? ==>
              exists j :: i <= j < |ms| && NativeFault(ms[j], first, j) == Some(CheckNatives(ms, first, i).error)
                          && forall k :: i <= k < j ==> NativeFault(ms[k], first, k).None?
    decreases |ms| - i
  {
    if i < |ms| {
      NativesPass(ms, first, i + 1);
    }
  }

  // --------------------------------------------------------------- messages

  function Timestamp(ns: TimestampNs): TimestampMsg {
    TimestampMsg(ns / NANOS, ns % NANOS)
  }

  function Envelope(name: Name, ns: TimestampNs, arm: RecordArm): RecordMsg {
    RecordMsg(name, Some(Timestamp(ns)), arm)
  }

  function MutationMessage(m: Checked, version: Version, sequenceNo: uint32): MutationMsg {
    MutationMsg(Some(VersionIndexMsg(version, sequenceNo)),
                if m.code == CLEAR_RANGE then ClearRange(ClearRangeMsg(m.param1, m.param2))
                else SingleKey(SingleKeyMsg(m.param1, m.param2, m.code)))
  }

  function MutationMessages(ms: seq<Checked>, version: Version, first: uint32): (r: seq<MutationMsg>)
    requires ms == [] || first + |ms| - 1 <= MAX_SEQUENCE_NO
    ensures |r| == |ms|
    ensures forall i :: 0 <= i < |ms| ==> r[i] == MutationMessage(ms[i], version, first + i)
  {
    seq(|ms|, i requires 0 <= i < |ms| => MutationMessage(ms[i], version, first + i))
  }

  function VersionEndMessage(version: Version, total: uint32, name: Name, ns: TimestampNs): RecordMsg {
    Envelope(name, ns, VersionEndRecord(VersionEndMsg(version, total, Some(Timestamp(ns)))))
  }

  // -------------------------------------------------------------- serialize

  function SerializeMutation(m: Native, version: int, sequenceNo: int, name: Name, ns: int): Result<bytes, InputError> {
    var range := CheckVersion(version);
    :- range;
    :- CheckSequenceNo(sequenceNo, "sequence_no", None);
    :- CheckEnvelope(name, ns);
    var native :- CheckNative(m, None);
    Ok(EncodeRecord(Envelope(name, ns, MutationRecord(MutationMessage(native, version, sequenceNo)))))
  }

  lemma NativesInRange(ms: seq<Native>, first: int)
    requires CheckNatives(ms, first, 0).Ok? && ms != []
    ensures 0 <= first && first + |ms| - 1 <= MAX_SEQUENCE_NO
  {
    NativesPass(ms, first, 0);
    assert NativeFault(ms[0], first, 0).None? && NativeFault(ms[|ms| - 1], first, |ms| - 1).None?;
  }

  function SerializeBatch(ms: seq<Native>, version: int, first: int, name: Name, ns: int): Result<bytes, InputError> {
    var range := CheckVersion(version);
    :- range;
    :- CheckSequenceNo(first, "first_sequence_no", None);
    :- CheckEnvelope(name, ns);
    var natives :- CheckNatives(ms, first, 0);
    if natives == [] then Err(OutOfRange("mutations", None))
    else
      NativesInRange(ms, first);
      Ok(EncodeRecord(Envelope(name, ns, BatchRecord(BatchMsg(MutationMessages(natives, version, first))))))
  }

  function SerializeVersionEnd(version: int, total: int, name: Name, ns: int): Result<bytes, InputError> {
    var range := CheckVersion(version);
    :- range;
    :- Need(0 <= total <= MAX_TOTAL_MUTATIONS, "total_mutations", None);
    :- CheckEnvelope(name, ns);
    Ok(EncodeRecord(VersionEndMessage(version, total, name, ns)))
  }

  // ------------------------------------------------- exactly what is accepted

  /** The name and the time an envelope can hold: up to the last nanosecond of the year 9999. */
  predicate GoodEnvelope(version: int, name: Name, ns: int) {
    && 0 <= version <= 0x7FFF_FFFF_FFFF_FFFF
    && name != []
    && 0 <= ns < 253_402_300_800 * 1_000_000_000
  }

  lemma MutationSerializesExactly(m: Native, version: int, sequenceNo: int, name: Name, ns: int)
    ensures SerializeMutation(m, version, sequenceNo, name, ns).Ok? <==>
            GoodEnvelope(version, name, ns) && 0 <= sequenceNo < 0x1_0000_0000 && 0 <= m.code < 256
  {
    hide EncodeRecord;
  }

  lemma BatchSerializesExactly(ms: seq<Native>, version: int, first: int, name: Name, ns: int)
    ensures SerializeBatch(ms, version, first, name, ns).Ok? <==>
            && GoodEnvelope(version, name, ns)
            && ms != [] && 0 <= first && first + |ms| <= 0x1_0000_0000
            && forall i :: 0 <= i < |ms| ==> 0 <= ms[i].code < 256
  {
    hide EncodeRecord;
    NativesPass(ms, first, 0);
    if ms != [] && first + |ms| > 0x1_0000_0000 {
      assert NativeFault(ms[|ms| - 1], first, |ms| - 1).Some?;
    }
    if ms != [] && CheckNatives(ms, first, 0).Ok? {
      assert forall i :: 0 <= i < |ms| ==> NativeFault(ms[i], first, i).None?;
    }
  }

  lemma VersionEndSerializesExactly(version: int, total: int, name: Name, ns: int)
    ensures SerializeVersionEnd(version, total, name, ns).Ok? <==>
            GoodEnvelope(version, name, ns) && 0 <= total < 0x1_0000_0000
  {
    hide EncodeRecord;
  }
}
