/**
 From a native reply to records and from the records to events: what the listener makes of a reply, and that a
 consumer reads exactly the events of the reply's groups from it, whatever the budget and the timestamp were.
 */
module Replies {
  import opened Prelude
  import opened Messages
  import opened Serializer
  import opened Deserializer
  import opened VersionGroup
  import opened Stream
  import opened Environment

  /** The record bytes of the groups, one after the other. */
  function GroupsBytes(gs: seq<CommitGroup>, budget: int, name: Name, ns: int): Result<seq<bytes>, InputError> {
    if gs == [] then Ok([])
    else
      var init :- GroupsBytes(gs[..|gs| - 1], budget, name, ns);
      var last :- Group(gs[|gs| - 1].mutations, gs[|gs| - 1].version, budget, name, ns);
      Ok(init + last)
  }

  function LastVersion(gs: seq<CommitGroup>): int {
    if gs == [] then -1 else gs[|gs| - 1].version
  }

  /** An empty version end, if the watermark is past the last group. */
  function WatermarkBytes(last: int, watermark: int, budget: int, name: Name, ns: int): Result<seq<bytes>, InputError> {
    if watermark >= 0 && watermark > last then
      var end :- SerializeVersionEnd(watermark, 0, name, ns);
      if |end| > budget then Err(TooLarge(None, |end|, budget)) else Ok([end])
    else Ok([])
  }

  function ReplyBytes(reply: NativeReply, budget: int, name: Name, ns: int): Result<seq<bytes>, InputError> {
    var groups :- GroupsBytes(reply.groups, budget, name, ns);
    var end :- WatermarkBytes(LastVersion(reply.groups), reply.watermark, budget, name, ns);
    Ok(groups + end)
  }

  predicate AllParse(data: seq<bytes>) {
    forall k :: 0 <= k < |data| ==> ParseRecord(data[k]).Some?
  }

  function ParseAll(data: seq<bytes>): (r: Option<seq<RecordMsg>>)
    ensures r.Some? ==> |r.value| == |data| && forall k :: 0 <= k < |data| ==> ParseRecord(data[k]) == Some(r.value[k])
    ensures r.Some? <==> AllParse(data)
  {
    if data == [] then Some([])
    else match (ParseAll(data[..|data| - 1]), ParseRecord(data[|data| - 1]))
      case (Some(init), Some(last)) => Some(init + [last])
      case _ => None
  }

  /** What a consumer reads once the record is on the topic. */
  function Carries(m: RecordMsg): seq<Event> {
    ConsumerReads(EncodeRecord(m))
  }

  function CarriesAll(ms: seq<RecordMsg>): (r: seq<seq<Event>>)
    ensures |r| == |ms| && forall k :: 0 <= k < |ms| ==> r[k] == Carries(ms[k])
  {
    seq(|ms|, k requires 0 <= k < |ms| => Carries(ms[k]))
  }

  function ReadAll(data: seq<bytes>): (r: seq<seq<Event>>)
    ensures |r| == |data| && forall k :: 0 <= k < |data| ==> r[k] == ConsumerReads(data[k])
  {
    seq(|data|, k requires 0 <= k < |data| => ConsumerReads(data[k]))
  }

  // ---------------------------------------------------------------- one group

  function AllBodyEvents(bodies: seq<Body>): (r: seq<seq<Event>>)
    ensures |r| == |bodies| && forall k :: 0 <= k < |bodies| ==> r[k] == BodyEvents(bodies[k])
  {
    seq(|bodies|, k requires 0 <= k < |bodies| => BodyEvents(bodies[k]))
  }

  lemma {:induction false} BatchesAre(bodies: seq<Body>)
    requires forall k :: 0 <= k < |bodies| ==> bodies[k].Batch?
    ensures Concat(AllBodyEvents(bodies)) == MutationEvents(MutationsOf(bodies))
  {
    if bodies != [] {
      BatchesAre(bodies[1..]);
      assert AllBodyEvents(bodies)[1..] == AllBodyEvents(bodies[1..]);
      MutationEventsAppend(bodies[0].mutations, MutationsOf(bodies[1..]));
    }
  }

  lemma MutationEventsAppend(a: seq<Mutation>, b: seq<Mutation>)
    ensures MutationEvents(a + b) == MutationEvents(a) + MutationEvents(b)
  {
  }

  lemma {:induction false} MutationsOfAppend(bodies: seq<Body>, end: Body)
    requires !end.Batch?
    ensures MutationsOf(bodies + [end]) == MutationsOf(bodies)
  {
    if bodies != [] {
      assert (bodies + [end])[1..] == bodies[1..] + [end];
      MutationsOfAppend(bodies[1..], end);
    } else {
      assert [end][1..] == [];
    }
  }

  /** Batches of a group's mutations and its version end are the events of the group. */
  lemma {:induction false} BodiesAreGroup(g: CommitGroup, bodies: seq<Body>, ns: int)
    requires |bodies| > 0 && bodies[|bodies| - 1] == VersionEnd(g.version, |g.mutations|, Some(ns))
    requires forall k :: 0 <= k < |bodies| - 1 ==> bodies[k].Batch?
    requires MutationsOf(bodies) == TaggedRun(g.mutations, g.version, 0)
    ensures Concat(AllBodyEvents(bodies)) == GroupEvents(g)
  {
    hide MutationsOf, Concat;
    var init, end := bodies[..|bodies| - 1], bodies[|bodies| - 1];
    assert bodies == init + [end];
    MutationsOfAppend(init, end);
    BatchesAre(init);
    assert AllBodyEvents(bodies) == AllBodyEvents(init) + [BodyEvents(end)];
    ConcatAppend(AllBodyEvents(init), [BodyEvents(end)]);
    ConcatOne(BodyEvents(end));
    assert MutationEvents(TaggedRun(g.mutations, g.version, 0)) + [End(g.version, |g.mutations|)] == GroupEvents(g);
  }

  /** A record that parses, and that was written from a message. */
  ghost predicate Written(data: bytes) {
    exists x :: EncodeRecord(x) == data
  }

  ghost predicate AllWritten(data: seq<bytes>) {
    forall k :: 0 <= k < |data| ==> Written(data[k])
  }

  lemma WrittenBy(x: RecordMsg)
    ensures Written(EncodeRecord(x))
  {
  }

  lemma GroupIsWritten(ms: seq<Native>, version: int, budget: int, name: Name, ns: int)
    requires Group(ms, version, budget, name, ns).Ok?
    ensures AllWritten(Group(ms, version, budget, name, ns).value)
  {
    hide Group, SliceRecords, EncodeRecord, Written, Slices, MutationMessages;
    GroupParts(ms, version, budget, name, ns);
    var t, messages := Target(name, ns, budget), MutationMessages(ms, version, 0);
    var slices := Slices(t, messages, 0);
    SliceRecordsAre(ms, version, t, slices, 0);
    var records := SliceRecords(ms, version, t, slices, 0);
    forall k | 0 <= k < |slices| ensures Written(records[k]) {
      WrittenBy(BatchMessage(messages[slices[k].0..slices[k].1], name, ns));
    }
    WrittenBy(VersionEndMessage(version, |ms|, name, ns));
    var all := Group(ms, version, budget, name, ns).value;
    forall k | 0 <= k < |all| ensures Written(all[k]) {
      assert k < |records| ==> all[k] == records[k];
    }
  }

  /** What a consumer reads from the records of a group is the group. */
  lemma GroupIsRead(g: CommitGroup, budget: int, name: Name, ns: int)
    requires Group(g.mutations, g.version, budget, name, ns).Ok?
    requires AllParse(Group(g.mutations, g.version, budget, name, ns).value)
    ensures Concat(ReadAll(Group(g.mutations, g.version, budget, name, ns).value)) == GroupEvents(g)
  {
    hide Group, ParseRecord, DeserializeRecord, BodyEvents, ConsumerReads;
    var records := Group(g.mutations, g.version, budget, name, ns).value;
    forall data | data in records ensures |data| <= MAX_MESSAGE_BYTES {
      ParsedIsSmall(data);
    }
    var bodies := GroupReads(g.mutations, g.version, budget, name, ns);
    BodiesAreGroup(g, bodies, ns);
    forall k | 0 <= k < |records| ensures ConsumerReads(records[k]) == BodyEvents(bodies[k]) {
      ReadsBody(records[k], Record(name, Some(ns), bodies[k]));
    }
    assert ReadAll(records) == AllBodyEvents(bodies);
  }

  lemma ParsedIsSmall(data: bytes)
    ensures ParseRecord(data).Some? ==> |data| <= MAX_MESSAGE_BYTES
  {
    hide Merge;
  }

  lemma ReadsBody(data: bytes, r: Record)
    requires DeserializeRecord(data) == Ok(r)
    ensures ConsumerReads(data) == BodyEvents(r.body)
  {
    hide DeserializeRecord;
  }

  // -------------------------------------------------------------- a whole reply

  lemma ReadAllAppend(a: seq<bytes>, b: seq<bytes>)
    ensures ReadAll(a + b) == ReadAll(a) + ReadAll(b)
    ensures AllParse(a + b) ==> AllParse(a) && AllParse(b)
  {
    hide ConsumerReads, ParseRecord;
    assert forall k :: 0 <= k < |a| ==> (a + b)[k] == a[k];
    assert forall k :: 0 <= k < |b| ==> (a + b)[|a| + k] == b[k];
  }

  lemma AllWrittenAppend(a: seq<bytes>, b: seq<bytes>)
    requires AllWritten(a) && AllWritten(b)
    ensures AllWritten(a + b)
  {
    hide Written;
  }

  lemma OneMoreGroup(init: seq<CommitGroup>, last: CommitGroup, a: seq<bytes>, b: seq<bytes>)
    requires Concat(ReadAll(a)) == Events(init) && Concat(ReadAll(b)) == GroupEvents(last)
    ensures Concat(ReadAll(a + b)) == Events(init + [last])
  {
    hide ReadAll, Concat, Events, GroupEvents, AllParse;
    ReadAllAppend(a, b);
    ConcatAppend(ReadAll(a), ReadAll(b));
    EventsAppend(init, [last]);
    EventsOne(last);
  }

  lemma {:induction false} GroupsAreRead(gs: seq<CommitGroup>, budget: int, name: Name, ns: int)
    requires GroupsBytes(gs, budget, name, ns).Ok? && AllParse(GroupsBytes(gs, budget, name, ns).value)
    ensures Concat(ReadAll(GroupsBytes(gs, budget, name, ns).value)) == Events(gs)
    ensures AllWritten(GroupsBytes(gs, budget, name, ns).value)
    decreases |gs|
  {
    hide Group, GroupsBytes, ReadAll, Written, AllWritten, GroupEvents, AllParse, Concat, Events;
    if gs == [] {
      NoGroups(budget, name, ns);
    } else {
      var init, last := gs[..|gs| - 1], gs[|gs| - 1];
      LastGroup(gs, budget, name, ns);
      var a := GroupsBytes(init, budget, name, ns).value;
      var b := Group(last.mutations, last.version, budget, name, ns).value;
      ReadAllAppend(a, b);
      GroupsAreRead(init, budget, name, ns);
      GroupIsRead(last, budget, name, ns);
      GroupIsWritten(last.mutations, last.version, budget, name, ns);
      AllWrittenAppend(a, b);
      OneMoreGroup(init, last, a, b);
      assert gs == init + [last];
    }
  }

  lemma NoGroups(budget: int, name: Name, ns: int)
    ensures GroupsBytes([], budget, name, ns) == Ok([])
    ensures Concat(ReadAll([])) == Events([]) && AllWritten([])
  {
    assert ReadAll([]) == [];
  }

  lemma LastGroup(gs: seq<CommitGroup>, budget: int, name: Name, ns: int)
    requires gs != [] && GroupsBytes(gs, budget, name, ns).Ok?
    ensures var init, last := gs[..|gs| - 1], gs[|gs| - 1];
            && GroupsBytes(init, budget, name, ns).Ok?
            && Group(last.mutations, last.version, budget, name, ns).Ok?
            && GroupsBytes(gs, budget, name, ns).value
               == GroupsBytes(init, budget, name, ns).value
                  + Group(last.mutations, last.version, budget, name, ns).value
  {
    hide Group;
  }

  lemma EventsOne(g: CommitGroup)
    ensures Events([g]) == GroupEvents(g)
  {
    assert [g][1..] == [];
    assert Events([]) == [];
  }

  lemma EndIsRead(watermark: int, name: Name, ns: int)
    requires SerializeVersionEnd(watermark, 0, name, ns).Ok?
    requires ParseRecord(SerializeVersionEnd(watermark, 0, name, ns).value).Some?
    ensures var end := SerializeVersionEnd(watermark, 0, name, ns).value;
            ConsumerReads(end) == [End(watermark, 0)] && Written(end)
  {
    hide DeserializeRecord, ParseRecord, Written, EncodeRecord;
    var end := SerializeVersionEnd(watermark, 0, name, ns).value;
    ParsedIsSmall(end);
    VersionEndRoundTrips(watermark, 0, name, ns);
    WrittenBy(VersionEndMessage(watermark, 0, name, ns));
  }

  /** The watermark gets a record of its own exactly when no group has its version. */
  lemma WatermarkIsNew(gs: seq<CommitGroup>, p: int, w: int)
    requires Ascending(gs) && p < w && w >= 0
    ensures Cut(gs, p) <= Cut(gs, w)
    ensures w > LastVersion(gs[Cut(gs, p)..Cut(gs, w)]) <==> !HasGroup(gs, w)
  {
    CutMonotone(gs, p, w);
    CutIs(gs, p);
    CutIs(gs, w);
    hide Cut;
    if HasGroup(gs, w) {
      var i :| 0 <= i < |gs| && gs[i].version == w;
      assert Cut(gs, p) <= i < Cut(gs, w);
    }
  }

  /**
   What a consumer reads from the records of a reply is the events of the stream from the previous position to the
   watermark: complete groups, in order, and a version end for the watermark.
   */
  lemma ReplyIsRead(gs: seq<CommitGroup>, p: int, reply: NativeReply, budget: int, name: Name, ns: int)
    requires Ascending(gs) && p < reply.watermark && reply.watermark >= 0
    requires Cut(gs, p) <= Cut(gs, reply.watermark)
    requires reply.groups == gs[Cut(gs, p)..Cut(gs, reply.watermark)]
    requires ReplyBytes(reply, budget, name, ns).Ok? && AllParse(ReplyBytes(reply, budget, name, ns).value)
    ensures Concat(ReadAll(ReplyBytes(reply, budget, name, ns).value)) == ReplyEvents(gs, p, reply.watermark)
    ensures AllWritten(ReplyBytes(reply, budget, name, ns).value)
    ensures ReplyBytes(reply, budget, name, ns).value != []
  {
    hide GroupsBytes, SerializeVersionEnd, ConsumerReads, Written, HasGroup, LastVersion, Cut, ParseRecord, Events;
    var w := reply.watermark;
    var a := GroupsBytes(reply.groups, budget, name, ns).value;
    var b := WatermarkBytes(LastVersion(reply.groups), w, budget, name, ns).value;
    ReadAllAppend(a, b);
    GroupsAreRead(reply.groups, budget, name, ns);
    ConcatAppend(ReadAll(a), ReadAll(b));
    WatermarkIsNew(gs, p, w);
    if HasGroup(gs, w) {
      assert ReadAll(b) == [];
    } else {
      assert b[0] == SerializeVersionEnd(w, 0, name, ns).value;
      EndIsRead(w, name, ns);
      assert ReadAll(b) == [[End(w, 0)]];
      ConcatOne([End(w, 0)]);
    }
    if a + b == [] {
      ReplyShape(gs, p, w);
    }
  }

  /** Parsing what was written and writing it again gives the same bytes. */
  lemma ParsedIsWritten(data: bytes)
    requires Written(data) && ParseRecord(data).Some?
    ensures EncodeRecord(ParseRecord(data).value) == data
  {
    hide EncodeRecord, ParseRecord;
    var x :| EncodeRecord(x) == data;
    RecordRoundTrip(x);
  }

  /** The records handed to the producer carry the events of the reply. */
  lemma RecordsCarryReply(gs: seq<CommitGroup>, p: int, reply: NativeReply, budget: int, name: Name, ns: int,
                          records: seq<RecordMsg>)
    requires Ascending(gs) && p < reply.watermark && reply.watermark >= 0
    requires Cut(gs, p) <= Cut(gs, reply.watermark)
    requires reply.groups == gs[Cut(gs, p)..Cut(gs, reply.watermark)]
    requires ReplyBytes(reply, budget, name, ns).Ok?
    requires ParseAll(ReplyBytes(reply, budget, name, ns).value) == Some(records)
    ensures Concat(CarriesAll(records)) == ReplyEvents(gs, p, reply.watermark) && records != []
  {
    hide ReplyBytes, ParseRecord, EncodeRecord, ConsumerReads, ReplyEvents, Cut, Written;
    var data := ReplyBytes(reply, budget, name, ns).value;
    ReplyIsRead(gs, p, reply, budget, name, ns);
    forall k | 0 <= k < |data| ensures Carries(records[k]) == ConsumerReads(data[k]) {
      ParsedIsWritten(data[k]);
    }
    assert CarriesAll(records) == ReadAll(data);
  }

  // ------------------------------------------------- exactly which replies convert

  /** Every group of the reply can be serialized, and so can its watermark if no group has that version. */
  predicate ReplyFits(reply: NativeReply, budget: int, name: Name, ns: int) {
    && (forall i :: 0 <= i < |reply.groups| ==>
          GroupFits(reply.groups[i].mutations, reply.groups[i].version, budget, name, ns))
    && (reply.watermark >= 0 && (forall i :: 0 <= i < |reply.groups| ==> reply.groups[i].version != reply.watermark) ==>
          EndFits(reply.watermark, 0, budget, name, ns))
  }

  /** No record is over the size limit of the format: always so if the budget is not. */
  predicate WithinFormat(reply: NativeReply, budget: int, name: Name, ns: int) {
    budget <= MAX_MESSAGE_BYTES
    || match ReplyBytes(reply, budget, name, ns)
       case Ok(data) => forall k :: 0 <= k < |data| ==> |data[k]| <= MAX_MESSAGE_BYTES
       case Err(_) => true
  }

  /** A reply of the stream: its versions ascend to the watermark. A reply may also bring nothing. */
  predicate WellFormed(reply: NativeReply) {
    && Ascending(reply.groups)
    && (forall i :: 0 <= i < |reply.groups| ==> reply.groups[i].version <= reply.watermark)
  }

  lemma {:induction false} GroupsSerializeExactly(gs: seq<CommitGroup>, budget: int, name: Name, ns: int)
    ensures GroupsBytes(gs, budget, name, ns).Ok? <==>
            forall i :: 0 <= i < |gs| ==> GroupFits(gs[i].mutations, gs[i].version, budget, name, ns)
    decreases |gs|
  {
    hide Group, GroupFits;
    if gs != [] {
      var last := gs[|gs| - 1];
      GroupsSerializeExactly(gs[..|gs| - 1], budget, name, ns);
      GroupSerializesExactly(last.mutations, last.version, budget, name, ns);
    }
  }

  lemma ReplySerializesExactly(reply: NativeReply, budget: int, name: Name, ns: int)
    requires WellFormed(reply)
    ensures ReplyBytes(reply, budget, name, ns).Ok? <==> ReplyFits(reply, budget, name, ns)
  {
    hide GroupsBytes, GroupFits, SerializeVersionEnd;
    GroupsSerializeExactly(reply.groups, budget, name, ns);
    var n := |reply.groups|;
    if n > 0 && reply.groups[n - 1].version < reply.watermark {
      assert forall i :: 0 <= i < n ==> reply.groups[i].version != reply.watermark;
    }
  }

  lemma {:induction false} GroupsAreWritten(gs: seq<CommitGroup>, budget: int, name: Name, ns: int)
    requires GroupsBytes(gs, budget, name, ns).Ok?
    ensures AllWritten(GroupsBytes(gs, budget, name, ns).value)
    ensures forall k :: 0 <= k < |GroupsBytes(gs, budget, name, ns).value| ==>
              |GroupsBytes(gs, budget, name, ns).value[k]| <= budget
    decreases |gs|
  {
    hide Group, Written;
    if gs != [] {
      var last := gs[|gs| - 1];
      GroupsAreWritten(gs[..|gs| - 1], budget, name, ns);
      GroupIsWritten(last.mutations, last.version, budget, name, ns);
      WithinBudget(last.mutations, last.version, budget, name, ns);
    }
  }

  lemma ReplyIsWritten(reply: NativeReply, budget: int, name: Name, ns: int)
    requires ReplyBytes(reply, budget, name, ns).Ok?
    ensures AllWritten(ReplyBytes(reply, budget, name, ns).value)
    ensures forall k :: 0 <= k < |ReplyBytes(reply, budget, name, ns).value| ==>
              |ReplyBytes(reply, budget, name, ns).value[k]| <= budget
  {
    hide GroupsBytes, SerializeVersionEnd, Written;
    GroupsAreWritten(reply.groups, budget, name, ns);
    var end := WatermarkBytes(LastVersion(reply.groups), reply.watermark, budget, name, ns).value;
    if end != [] {
      EndIsWritten(reply.watermark, name, ns);
    }
  }

  lemma EndIsWritten(watermark: int, name: Name, ns: int)
    requires SerializeVersionEnd(watermark, 0, name, ns).Ok?
    ensures Written(SerializeVersionEnd(watermark, 0, name, ns).value)
  {
    hide Written, EncodeRecord;
    WrittenBy(VersionEndMessage(watermark, 0, name, ns));
  }

  lemma WrittenParsesExactly(data: bytes)
    requires Written(data)
    ensures ParseRecord(data).Some? <==> |data| <= MAX_MESSAGE_BYTES
  {
    hide EncodeRecord, ParseRecord;
    var x :| EncodeRecord(x) == data;
    RecordRoundTrip(x);
  }

  /** A reply is converted exactly when all of it can be serialized and no record is over the limit of the format. */
  lemma ReplyConvertsExactly(reply: NativeReply, budget: int, name: Name, ns: int)
    requires WellFormed(reply)
    ensures (match ReplyBytes(reply, budget, name, ns) case Ok(data) => ParseAll(data).Some? case Err(_) => false) <==>
            ReplyFits(reply, budget, name, ns) && WithinFormat(reply, budget, name, ns)
  {
    hide ReplyBytes, ReplyFits, Written, ParseRecord;
    ReplySerializesExactly(reply, budget, name, ns);
    if ReplyBytes(reply, budget, name, ns).Ok? {
      ReplyIsWritten(reply, budget, name, ns);
      var data := ReplyBytes(reply, budget, name, ns).value;
      forall k | 0 <= k < |data| ensures ParseRecord(data[k]).Some? <==> |data[k]| <= MAX_MESSAGE_BYTES {
        WrittenParsesExactly(data[k]);
      }
    }
  }

  lemma SliceIsWellFormed(gs: seq<CommitGroup>, p: int, reply: NativeReply)
    requires Ascending(gs) && p < reply.watermark && Cut(gs, p) <= Cut(gs, reply.watermark)
    requires reply.groups == gs[Cut(gs, p)..Cut(gs, reply.watermark)]
    ensures WellFormed(reply)
  {
    CutIs(gs, reply.watermark);
    hide Cut;
    assert forall i :: 0 <= i < |reply.groups| ==> reply.groups[i] == gs[Cut(gs, p) + i];
  }
}
