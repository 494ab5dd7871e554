/**
 The schema as a table, read off fdbkafka/cdc/v1/mutations.proto (and google/protobuf/timestamp.proto), and an encoder
 that knows messages only through that table. What Messages.dfy writes is what this encoder writes.
 */
module Schema {
  import opened Prelude
  import opened WireFormat
  import opened Messages
  import Utf8
  import Varint

  datatype MessageName =
    | FDBVersionIndex
    | VersionEnd
    | FDBSingleKeyMutation
    | FDBClearRange
    | FDBMutation
    | FDBMutationBatch
    | FDBMutationRecord
    | Timestamp

  datatype FieldName =
    | fdb_version
    | sequence_no
    | total_mutations
    | bridge_timestamp
    | key
    | value
    | mutation_type
    | begin_key
    | end_key
    | version_index
    | single_key_mutation
    | clear_range
    | mutations
    | stream_name
    | mutation
    | version_end
    | batch
    | seconds
    | nanos

  datatype Type = UINT64 | UINT32 | INT64 | INT32 | ENUM | BYTES | STRING | MESSAGE(message: MessageName)

  datatype Row = Row(name: FieldName, number: nat, kind: Type)

  /** The fields of a message, by number. */
  function Table(message: MessageName): seq<Row> {
    match message
    case FDBVersionIndex => [Row(fdb_version, 1, UINT64), Row(sequence_no, 2, UINT32)]
    case VersionEnd =>
      [Row(fdb_version, 1, UINT64), Row(total_mutations, 2, UINT32), Row(bridge_timestamp, 3, MESSAGE(Timestamp))]
    case FDBSingleKeyMutation => [Row(key, 1, BYTES), Row(value, 2, BYTES), Row(mutation_type, 3, ENUM)]
    case FDBClearRange => [Row(begin_key, 1, BYTES), Row(end_key, 2, BYTES)]
    case FDBMutation =>
      [Row(version_index, 1, MESSAGE(FDBVersionIndex)),
       Row(single_key_mutation, 2, MESSAGE(FDBSingleKeyMutation)), Row(clear_range, 3, MESSAGE(FDBClearRange))]
    case FDBMutationBatch => [Row(mutations, 1, MESSAGE(FDBMutation))]
    case FDBMutationRecord =>
      [Row(stream_name, 1, STRING), Row(bridge_timestamp, 2, MESSAGE(Timestamp)),
       Row(mutation, 3, MESSAGE(FDBMutation)), Row(version_end, 4, MESSAGE(VersionEnd)),
       Row(batch, 5, MESSAGE(FDBMutationBatch))]
    case Timestamp => [Row(seconds, 1, INT64), Row(nanos, 2, INT32)]
  }

  function Find(rows: seq<Row>, name: FieldName): Option<Row> {
    if rows == [] then None else if rows[0].name == name then Some(rows[0]) else Find(rows[1..], name)
  }

  // ---------------------------------------------------------- a generic encoder

  /** A message as the values of its named fields, in the order they are written; a repeated one comes several times. */
  datatype Entries = End | Entry(name: FieldName, content: Content, rest: Entries)
  datatype Content = Number(n: WireInt) | Data(data: bytes) | Sub(message: Entries)

  /** What some integer type of the schema can hold. */
  type WireInt = x: int | -0x8000_0000_0000_0000 <= x < 0x1_0000_0000_0000_0000

  /** A tag, then an integer in 64 bits or anything else after its length. What is zero or empty is left out. */
  function FieldBytes(row: Row, c: Content): bytes
    decreases c, 0
  {
    match c
    case Number(n) =>
      var bits := if n < 0 then n + 0x1_0000_0000_0000_0000 else n;
      if n == 0 then [] else Varint.Encode(8 * row.number + 0) + Varint.Encode(bits)
    case Data(data) =>
      if data == [] then [] else Varint.Encode(8 * row.number + 2) + Varint.Encode(|data|) + data
    case Sub(message) =>
      var payload := if row.kind.MESSAGE? then MessageBytes(row.kind.message, message) else [];
      Varint.Encode(8 * row.number + 2) + Varint.Encode(|payload|) + payload
  }

  function MessageBytes(message: MessageName, es: Entries): bytes
    decreases es, 1
  {
    match es
    case End => []
    case Entry(name, content, rest) =>
      match Find(Table(message), name)
      case None => []
      case Some(row) => FieldBytes(row, content) + MessageBytes(message, rest)
  }

  /** The entries are of the declared types, and come by number. */
  predicate Conforms(message: MessageName, es: Entries, number: nat)
    decreases es, 1
  {
    match es
    case End => true
    case Entry(name, content, rest) =>
      match Find(Table(message), name)
      case None => false
      case Some(row) => number <= row.number && HasType(row.kind, content) && Conforms(message, rest, row.number)
  }

  predicate HasType(kind: Type, c: Content)
    decreases c, 0
  {
    match kind
    case UINT64 => c.Number? && 0 <= c.n
    case UINT32 => c.Number? && 0 <= c.n < 0x1_0000_0000
    case INT64 => c.Number? && c.n < 0x8000_0000_0000_0000
    case INT32 => c.Number? && -0x8000_0000 <= c.n < 0x8000_0000
    case ENUM => c.Number? && -0x8000_0000 <= c.n < 0x8000_0000
    case BYTES => c.Data?
    case STRING => c.Data? && Utf8.Valid(c.data)
    case MESSAGE(message) => c.Sub? && Conforms(message, c.message, 0)
  }

  // ------------------------------------------------------------- the messages

  function IndexEntries(x: VersionIndexMsg): Entries {
    Entry(fdb_version, Number(x.fdbVersion), Entry(sequence_no, Number(x.sequenceNo), End))
  }

  function TimestampEntries(x: TimestampMsg): Entries {
    Entry(seconds, Number(x.seconds), Entry(nanos, Number(x.nanos), End))
  }

  function SingleEntries(x: SingleKeyMsg): Entries {
    Entry(key, Data(x.key), Entry(value, Data(x.value), Entry(mutation_type, Number(x.mutationType), End)))
  }

  function ClearEntries(x: ClearRangeMsg): Entries {
    Entry(begin_key, Data(x.beginKey), Entry(end_key, Data(x.endKey), End))
  }

  function ArmEntries(x: MutationArm): Entries {
    match x
    case NoMutation => End
    case SingleKey(s) => Entry(single_key_mutation, Sub(SingleEntries(s)), End)
    case ClearRange(c) => Entry(clear_range, Sub(ClearEntries(c)), End)
  }

  function MutationEntries(x: MutationMsg): Entries {
    if x.versionIndex.Some? then Entry(version_index, Sub(IndexEntries(x.versionIndex.value)), ArmEntries(x.arm))
    else ArmEntries(x.arm)
  }

  function BatchEntries(ms: seq<MutationMsg>): Entries {
    if ms == [] then End else Entry(mutations, Sub(MutationEntries(ms[0])), BatchEntries(ms[1..]))
  }

  function TimeEntries(x: Option<TimestampMsg>, rest: Entries): Entries {
    if x.Some? then Entry(bridge_timestamp, Sub(TimestampEntries(x.value)), rest) else rest
  }

  function VersionEndEntries(x: VersionEndMsg): Entries {
    Entry(fdb_version, Number(x.fdbVersion),
          Entry(total_mutations, Number(x.totalMutations), TimeEntries(x.bridgeTimestamp, End)))
  }

  function BodyEntries(x: RecordArm): Entries {
    match x
    case NoRecord => End
    case MutationRecord(m) => Entry(mutation, Sub(MutationEntries(m)), End)
    case VersionEndRecord(e) => Entry(version_end, Sub(VersionEndEntries(e)), End)
    case BatchRecord(b) => Entry(batch, Sub(BatchEntries(b.mutations)), End)
  }

  function RecordEntries(x: RecordMsg): Entries {
    Entry(stream_name, Data(x.streamName), TimeEntries(x.bridgeTimestamp, BodyEntries(x.arm)))
  }

  // ------------------------------------------------------------ the agreement

  /** The entries are of the declared types, by number from `number` on, and their bytes are those of the fields. */
  predicate Agrees(message: MessageName, es: Entries, number: nat, fs: seq<Written>) {
    Conforms(message, es, number) && MessageBytes(message, es) == EncodeFields(fs)
  }

  lemma {:induction false} FindAt(rows: seq<Row>, k: nat)
    requires k < |rows| && forall j :: 0 <= j < k ==> rows[j].name != rows[k].name
    ensures Find(rows, rows[k].name) == Some(rows[k])
  {
    if k > 0 {
      FindAt(rows[1..], k - 1);
    }
  }

  lemma Lookup(message: MessageName, k: nat)
    requires k < |Table(message)|
    ensures var row := Table(message)[k];
            Find(Table(message), row.name) == Some(row)
  {
    FindAt(Table(message), k);
  }

  lemma Nothing(message: MessageName, number: nat)
    ensures Agrees(message, End, number, [])
  {
  }

  lemma NumberBytes(row: Row, n: WireInt)
    ensures var bits := if n < 0 then n + 0x1_0000_0000_0000_0000 else n;
            FieldBytes(row, Number(n)) == EncodeFields(OptVarint(row.number, bits))
  {
    EncodeFieldsOne(VarintField(row.number, if n < 0 then n + 0x1_0000_0000_0000_0000 else n));
  }

  lemma DataBytes(row: Row, data: bytes)
    ensures FieldBytes(row, Data(data)) == EncodeFields(OptLen(row.number, data))
  {
    EncodeFieldsOne(LenField(row.number, data));
  }

  lemma SubBytes(row: Row, es: Entries, payload: seq<Written>)
    requires row.kind.MESSAGE? && Agrees(row.kind.message, es, 0, payload)
    ensures FieldBytes(row, Sub(es)) == EncodeFields([LenField(row.number, EncodeFields(payload))])
    ensures HasType(row.kind, Sub(es))
  {
    EncodeFieldsOne(LenField(row.number, EncodeFields(payload)));
  }

  /** One more field in front: an integer, */
  lemma NumberFirst(message: MessageName, k: nat, n: WireInt, rest: Entries, fs: seq<Written>, number: nat)
    requires k < |Table(message)|
    requires var row := Table(message)[k];
             number <= row.number && HasType(row.kind, Number(n)) && Agrees(message, rest, row.number, fs)
    ensures var row, bits := Table(message)[k], if n < 0 then n + 0x1_0000_0000_0000_0000 else n;
            Agrees(message, Entry(row.name, Number(n), rest), number, OptVarint(row.number, bits) + fs)
  {
    hide FieldBytes, EncodeFields, Table, Find, OptVarint;
    Lookup(message, k);
    var row, bits := Table(message)[k], if n < 0 then n + 0x1_0000_0000_0000_0000 else n;
    NumberBytes(row, n);
    EncodeFieldsAppend(OptVarint(row.number, bits), fs);
  }

  /** a byte string, */
  lemma DataFirst(message: MessageName, k: nat, data: bytes, rest: Entries, fs: seq<Written>, number: nat)
    requires k < |Table(message)|
    requires var row := Table(message)[k];
             number <= row.number && HasType(row.kind, Data(data)) && Agrees(message, rest, row.number, fs)
    ensures var row := Table(message)[k];
            Agrees(message, Entry(row.name, Data(data), rest), number, OptLen(row.number, data) + fs)
  {
    hide FieldBytes, EncodeFields, Table, Find, OptLen;
    Lookup(message, k);
    var row := Table(message)[k];
    DataBytes(row, data);
    EncodeFieldsAppend(OptLen(row.number, data), fs);
  }

  /** an embedded message. */
  lemma SubFirst(message: MessageName, k: nat, es: Entries, payload: seq<Written>, rest: Entries, fs: seq<Written>,
                 number: nat)
    requires k < |Table(message)|
    requires var row := Table(message)[k];
             && number <= row.number && row.kind.MESSAGE? && Agrees(row.kind.message, es, 0, payload)
             && Agrees(message, rest, row.number, fs)
    ensures var row := Table(message)[k];
            Agrees(message, Entry(row.name, Sub(es), rest), number,
                   [LenField(row.number, EncodeFields(payload))] + fs)
  {
    hide FieldBytes, EncodeFields, Table, Find;
    Lookup(message, k);
    var row := Table(message)[k];
    SubBytes(row, es, payload);
    EncodeFieldsAppend([LenField(row.number, EncodeFields(payload))], fs);
  }

  lemma IndexBySchema(x: VersionIndexMsg)
    ensures Agrees(FDBVersionIndex, IndexEntries(x), 0, IndexFields(x))
  {
    hide Agrees, OptVarint;
    var m := FDBVersionIndex;
    var b := OptVarint(2, x.sequenceNo);
    Nothing(m, 2);
    NumberFirst(m, 1, x.sequenceNo, End, [], 1);
    NumberFirst(m, 0, x.fdbVersion, Entry(sequence_no, Number(x.sequenceNo), End), b + [], 0);
    assert b + [] == b;
  }

  lemma TimestampBySchema(x: TimestampMsg)
    ensures Agrees(Timestamp, TimestampEntries(x), 0, TimestampFields(x))
  {
    hide Agrees, OptVarint;
    var m := Timestamp;
    var b := OptVarint(2, ToWire(x.nanos));
    Nothing(m, 2);
    NumberFirst(m, 1, x.nanos, End, [], 1);
    NumberFirst(m, 0, x.seconds, Entry(nanos, Number(x.nanos), End), b + [], 0);
    assert b + [] == b;
  }

  lemma SingleBySchema(x: SingleKeyMsg)
    ensures Agrees(FDBSingleKeyMutation, SingleEntries(x), 0, SingleFields(x))
  {
    hide Agrees, OptVarint, OptLen;
    var m := FDBSingleKeyMutation;
    var a, b, c := OptLen(1, x.key), OptLen(2, x.value), OptVarint(3, ToWire(x.mutationType));
    var last := Entry(mutation_type, Number(x.mutationType), End);
    Nothing(m, 3);
    NumberFirst(m, 2, x.mutationType, End, [], 2);
    DataFirst(m, 1, x.value, last, c + [], 1);
    DataFirst(m, 0, x.key, Entry(value, Data(x.value), last), b + (c + []), 0);
    assert a + (b + (c + [])) == a + b + c;
  }

  lemma ClearBySchema(x: ClearRangeMsg)
    ensures Agrees(FDBClearRange, ClearEntries(x), 0, ClearFields(x))
  {
    hide Agrees, OptLen;
    var m := FDBClearRange;
    var b := OptLen(2, x.endKey);
    Nothing(m, 2);
    DataFirst(m, 1, x.endKey, End, [], 1);
    DataFirst(m, 0, x.beginKey, Entry(end_key, Data(x.endKey), End), b + [], 0);
    assert b + [] == b;
  }

  lemma ArmBySchema(x: MutationArm)
    ensures Agrees(FDBMutation, ArmEntries(x), 1, MutationArmFields(x))
  {
    hide Agrees, SingleFields, ClearFields, SingleEntries, ClearEntries;
    var m := FDBMutation;
    Nothing(m, 1);
    Nothing(m, 2);
    Nothing(m, 3);
    assert forall f: Written :: [f] + [] == [f];
    match x
    case NoMutation =>
    case SingleKey(s) =>
      SingleBySchema(s);
      SubFirst(m, 1, SingleEntries(s), SingleFields(s),
               End, [], 1);
    case ClearRange(c) =>
      ClearBySchema(c);
      SubFirst(m, 2, ClearEntries(c), ClearFields(c), End, [], 1);
  }

  lemma Sooner(message: MessageName, es: Entries, number: nat, fs: seq<Written>)
    requires Agrees(message, es, number, fs)
    ensures Agrees(message, es, 0, fs)
  {
  }

  lemma MutationBySchema(x: MutationMsg)
    ensures Agrees(FDBMutation, MutationEntries(x), 0, MutationFields(x))
  {
    hide Agrees, IndexFields, IndexEntries, ArmEntries, MutationArmFields;
    var rest, fs := ArmEntries(x.arm), MutationArmFields(x.arm);
    ArmBySchema(x.arm);
    if x.versionIndex.Some? {
      var i := x.versionIndex.value;
      IndexBySchema(i);
      SubFirst(FDBMutation, 0, IndexEntries(i), IndexFields(i),
               rest, fs, 0);
    } else {
      Sooner(FDBMutation, rest, 1, fs);
      assert [] + fs == fs;
    }
  }

  lemma {:induction false} BatchBySchema(ms: seq<MutationMsg>)
    ensures Agrees(FDBMutationBatch, BatchEntries(ms), 1, BatchFields(ms))
    ensures Agrees(FDBMutationBatch, BatchEntries(ms), 0, BatchFields(ms))
  {
    hide Agrees, MutationEntries, MutationFields;
    if ms == [] {
      Nothing(FDBMutationBatch, 1);
    } else {
      MutationBySchema(ms[0]);
      BatchBySchema(ms[1..]);
      SubFirst(FDBMutationBatch, 0, MutationEntries(ms[0]), MutationFields(ms[0]),
               BatchEntries(ms[1..]), BatchFields(ms[1..]), 1);
    }
    Sooner(FDBMutationBatch, BatchEntries(ms), 1, BatchFields(ms));
  }

  /** The time of a record or a version end, and what follows it. */
  lemma TimeBySchema(message: MessageName, k: nat, x: Option<TimestampMsg>, rest: Entries, fs: seq<Written>,
                     number: nat)
    requires k < |Table(message)|
    requires var row := Table(message)[k];
             && row.name == bridge_timestamp && row.kind == MESSAGE(Timestamp) && number <= row.number
             && Agrees(message, rest, row.number, fs) && Agrees(message, rest, number, fs)
    ensures var row := Table(message)[k];
            Agrees(message, TimeEntries(x, rest), number, SubTimestamp(row.number, x) + fs)
  {
    hide Agrees, TimestampFields, TimestampEntries, Find, Table;
    if x.Some? {
      TimestampBySchema(x.value);
      SubFirst(message, k, TimestampEntries(x.value), TimestampFields(x.value), rest, fs, number);
    } else {
      assert [] + fs == fs;
    }
  }

  lemma VersionEndBySchema(x: VersionEndMsg)
    ensures Agrees(VersionEnd, VersionEndEntries(x), 0, VersionEndFields(x))
  {
    hide Agrees, OptVarint, TimeEntries, SubTimestamp;
    var m := VersionEnd;
    var a, b, c := OptVarint(1, x.fdbVersion), OptVarint(2, x.totalMutations), SubTimestamp(3, x.bridgeTimestamp);
    var time := TimeEntries(x.bridgeTimestamp, End);
    Nothing(m, 2);
    Nothing(m, 3);
    TimeBySchema(m, 2, x.bridgeTimestamp, End, [], 2);
    NumberFirst(m, 1, x.totalMutations, time, c + [], 1);
    NumberFirst(m, 0, x.fdbVersion, Entry(total_mutations, Number(x.totalMutations), time),
                b + (c + []), 0);
    assert a + (b + (c + [])) == a + b + c;
  }

  lemma BodyBySchema(x: RecordArm)
    ensures Agrees(FDBMutationRecord, BodyEntries(x), 1, RecordArmFields(x))
    ensures Agrees(FDBMutationRecord, BodyEntries(x), 2, RecordArmFields(x))
  {
    hide Agrees, MutationEntries, MutationFields, VersionEndEntries, VersionEndFields, BatchEntries, BatchFields;
    var m := FDBMutationRecord;
    forall number: nat {
      Nothing(m, number);
    }
    assert forall f: Written :: [f] + [] == [f];
    forall number: nat | number <= 2 ensures Agrees(m, BodyEntries(x), number, RecordArmFields(x)) {
      match x
      case NoRecord =>
      case MutationRecord(c) =>
        MutationBySchema(c);
        SubFirst(m, 2, MutationEntries(c), MutationFields(c), End, [], number);
      case VersionEndRecord(e) =>
        VersionEndBySchema(e);
        SubFirst(m, 3, VersionEndEntries(e), VersionEndFields(e), End, [],
                 number);
      case BatchRecord(b) =>
        BatchBySchema(b.mutations);
        SubFirst(m, 4, BatchEntries(b.mutations), BatchFields(b.mutations),
                 End, [], number);
    }
  }

  /** Every record is written as the table has it: its fields are of their types, under their numbers, in order. */
  lemma RecordBySchema(x: RecordMsg)
    ensures EncodeRecord(x) == MessageBytes(FDBMutationRecord, RecordEntries(x))
    ensures Conforms(FDBMutationRecord, RecordEntries(x), 0)
  {
    hide OptLen, TimeEntries, SubTimestamp, BodyEntries, RecordArmFields, MessageBytes, Conforms;
    var m := FDBMutationRecord;
    var a, b, c := OptLen(1, x.streamName), SubTimestamp(2, x.bridgeTimestamp), RecordArmFields(x.arm);
    var body := BodyEntries(x.arm);
    BodyBySchema(x.arm);
    TimeBySchema(m, 1, x.bridgeTimestamp, body, c, 1);
    DataFirst(m, 0, x.streamName, TimeEntries(x.bridgeTimestamp, body), b + c, 0);
    assert a + (b + c) == a + b + c;
  }
}
