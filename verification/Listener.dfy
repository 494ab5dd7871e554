/** The CDC listener: one unacknowledged reply at a time, and none after one that could not be serialized. */
module Listeners {
  import opened Prelude
  import opened Errors
  import opened Messages
  import opened Serializer
  import opened Stream
  import opened Protocol
  import opened Environment
  import opened Replies
  import VersionGroup

  /** What starting did: whether the acknowledgement of the resumed cursor was restored. */
  datatype Opening = NotOpened | Fresh | Resumed(restored: bool)

  class MutationListener {
    const world: World
    const streamName: Name
    const initialCursor: Option<Cursor>
    const maxRecordBytes: int
    /** Whether there is a native consumer. */
    var consumer: bool
    var isClosed: bool
    var awaitingAck: bool
    var deliveryFailed: bool

    ghost predicate Valid()
      reads this
    {
      && (isClosed ==> !consumer)
      && !(awaitingAck && deliveryFailed)
    }

    constructor (world: World, streamName: Name, initialCursor: Option<Cursor>, maxRecordBytes: int)
      ensures Valid() && !consumer && !isClosed && !awaitingAck && !deliveryFailed
      ensures this.world == world && this.streamName == streamName
      ensures this.initialCursor == initialCursor && this.maxRecordBytes == maxRecordBytes
    {
      this.world := world;
      this.streamName := streamName;
      this.initialCursor := initialCursor;
      this.maxRecordBytes := maxRecordBytes;
      consumer, isClosed, awaitingAck, deliveryFailed := false, false, false, false;
    }

    /**
     Creates the consumer, or resumes it and restores the acknowledgement of its cursor. A resume that fails leaves no
     consumer, but may have restored the acknowledgement.
     */
    method Start() returns (r: Outcome<()>, ghost opening: Opening)
      requires Valid()
      modifies this`consumer, world`position, world`watermark, world`faults, world`clusterVersion, world`ackErrors
      ensures Valid() && world.faults >= old(world.faults)
      ensures r.Err? && world.faults == old(world.faults) ==>
        old(isClosed) || (r.error == CdcError(InvalidCursor) && initialCursor.Some?
                          && world.clusterVersion < initialCursor.value.version)
      ensures r.Ok? ==> consumer
      ensures r.Err? && !old(isClosed) ==> FromFdb(r.error) || r.error == CdcError(InvalidCursor)
      ensures r.Err? ==> consumer == old(consumer)
      ensures old(consumer) ==> r.Ok? && opening.NotOpened?
      ensures !old(consumer) && old(isClosed) ==> r == Err(CdcClosed)
      ensures r.Ok? && !old(consumer) ==> opening == if initialCursor.None? then Fresh else Resumed(true)
      ensures opening.NotOpened? ==> world.watermark == old(world.watermark)
      ensures opening.NotOpened? && old(consumer) ==> world.position == old(world.position)
      ensures opening.Fresh? ==>
        r.Ok? && initialCursor.None? && world.watermark == old(world.watermark) == world.position
      ensures opening.Resumed? ==>
        && initialCursor.Some? && (opening.restored ==> world.clusterVersion >= initialCursor.value.version)
        && (r.Ok? ==> world.position == initialCursor.value.version)
        && world.watermark ==
             if opening.restored then Max(old(world.watermark), initialCursor.value.version) else old(world.watermark)
    {
      opening := NotOpened;
      if consumer {
        return Ok(()), opening;
      }
      if isClosed {
        return Err(CdcClosed), opening;
      }
      r := world.OpenStream();
      if r.Err? {
        return;
      }
      if initialCursor.None? {
        r := world.CreateConsumer();
        if r.Ok? {
          consumer := true;
          opening := Fresh;
        }
        return;
      }
      r := world.ResumeConsumer(initialCursor.value);
      if r.Err? {
        return;
      }
      consumer := true;
      ghost var restored;
      r, restored := Reconcile(initialCursor.value);
      opening := Resumed(restored);
      if r.Err? {
        consumer := false;
      }
    }

    /** Waits until the cluster has reached the cursor's version, then acknowledges it again. */
    method Reconcile(cursor: Cursor) returns (r: Outcome<()>, ghost restored: bool)
      requires world.position == cursor.version
      modifies world`watermark, world`faults, world`clusterVersion, world`ackErrors
      ensures world.faults >= old(world.faults)
      ensures restored ==> world.clusterVersion >= cursor.version
      ensures r.Ok? ==> restored
      ensures r.Err? && world.faults == old(world.faults) ==>
        r.error == CdcError(InvalidCursor) && world.clusterVersion < cursor.version
      ensures r.Err? ==> FromFdb(r.error) || r.error == CdcError(InvalidCursor)
      ensures world.watermark == if restored then Max(old(world.watermark), cursor.version) else old(world.watermark)
    {
      restored := false;
      var beforeDeadline: nat := *;
      while true
        invariant world.watermark == old(world.watermark) && world.faults == old(world.faults)
        decreases beforeDeadline
      {
        var version := world.ReadVersion();
        if version.Err? {
          return Err(version.error), restored;
        }
        if version.value >= cursor.version {
          break;
        }
        if beforeDeadline == 0 {
          return Err(CdcError(InvalidCursor)), restored;
        }
        beforeDeadline := beforeDeadline - 1;
      }
      r, restored := world.Acknowledge();
    }

    /** Why a poll is refused without asking FoundationDB. */
    function PollRefusal(): Option<Exc>
      reads this
    {
      if deliveryFailed then Some(CdcError(Unserialized))
      else if awaitingAck then Some(CdcError(Unacknowledged))
      else if isClosed then Some(CdcClosed)
      else None
    }

    /** The whole reply can be serialized at this time, and parsed again. */
    predicate Converts(reply: NativeReply, ns: int) {
      ReplyFits(reply, maxRecordBytes, streamName, ns) && WithinFormat(reply, maxRecordBytes, streamName, ns)
    }

    /**
     Polls one reply. The position advances with it; if it cannot be converted, the listener stays failed, and if
     anything came of it, the listener awaits its acknowledgement.
     */
    method PollRecords() returns (r: Outcome<seq<RecordMsg>>, ghost polled: Option<NativeReply>)
      requires Valid() && (consumer || isClosed)
      modifies this`awaitingAck, this`deliveryFailed
      modifies world`position, world`polls, world`served, world`time, world`faults
      ensures Valid() && world.faults >= old(world.faults)
      ensures old(PollRefusal()).None? ==> polled == world.served
      ensures polled.Some? ==>
        && WellFormed(polled.value)
        && (r.Ok? <==> Converts(polled.value, world.time))
        && world.faults == old(world.faults)
      ensures polled.None? && old(PollRefusal()).None? ==> world.faults > old(world.faults)
      ensures old(PollRefusal()).Some? ==> r == Err(old(PollRefusal()).value) && polled.None?
      ensures world.polls == old(world.polls) + if old(PollRefusal()).Some? then 0 else 1
      ensures polled.None? ==> unchanged(this) && world.position == old(world.position) && r.Err?
      ensures polled.None? && old(PollRefusal()).None? ==> FromFdb(r.error)
      ensures polled.Some? ==>
        var reply := polled.value;
        if reply.watermark < 0 then
          reply == NativeReply([], -1) && world.position == old(world.position)
        else
          && world.watermark <= old(world.position) < world.position == reply.watermark
          && Cut(world.cfg.stream, old(world.position)) <= Cut(world.cfg.stream, reply.watermark)
          && reply.groups ==
             world.cfg.stream[Cut(world.cfg.stream, old(world.position))..Cut(world.cfg.stream, reply.watermark)]
      ensures polled.Some? && r.Ok? && polled.value.watermark >= 0 ==>
        && r.value != []
        && Concat(CarriesAll(r.value)) == ReplyEvents(world.cfg.stream, old(world.position), world.position)
      ensures polled.Some? && polled.value.watermark < 0 ==> r == Ok([])
      ensures polled.Some? && r.Err? ==> r.error.SerializationError? || r.error.ParseError?
      ensures polled.Some? ==> deliveryFailed == r.Err? && awaitingAck == (r.Ok? && r.value != [])
    {
      hide ReplyBytes, ParseAll, ReplyEvents, CarriesAll, Concat, Cut, ReplyFits, WithinFormat, WellFormed;
      polled := None;
      if deliveryFailed {
        return Err(CdcError(Unserialized)), polled;
      }
      if awaitingAck {
        return Err(CdcError(Unacknowledged)), polled;
      }
      if isClosed {
        return Err(CdcClosed), polled;
      }
      var reply := world.Consume();
      if reply.Err? {
        return Err(reply.error), polled;
      }
      polled := Some(reply.value);
      deliveryFailed := true;
      if reply.value.watermark >= 0 {
        SliceIsWellFormed(world.cfg.stream, old(world.position), reply.value);
      } else {
        IdleIsWellFormed();
      }
      var ns := world.Clock();
      r := Convert(reply.value, ns);
      ReplyConvertsExactly(reply.value, maxRecordBytes, streamName, ns);
      if r.Err? {
        return;
      }
      deliveryFailed := false;
      awaitingAck := r.value != [];
      if reply.value.watermark >= 0 {
        RecordsCarryReply(world.cfg.stream, old(world.position), reply.value, maxRecordBytes, streamName, ns, r.value);
      }
    }

    /** The records of a reply: serialized, then parsed again. */
    method Convert(reply: NativeReply, ns: int) returns (r: Outcome<seq<RecordMsg>>)
      ensures r == match ReplyBytes(reply, maxRecordBytes, streamName, ns)
                   case Err(e) => Err(SerializationError(e))
                   case Ok(data) => match ParseAll(data)
                                    case Some(records) => Ok(records)
                                    case None => Err(ParseError)
      ensures reply == NativeReply([], -1) ==> r == Ok([])
    {
      var data := Serialize(reply, ns);
      if data.Err? {
        return Err(SerializationError(data.error));
      }
      var records := ParseAll(data.value);
      return if records.Some? then Ok(records.value) else Err(ParseError);
    }

    /** The groups one after the other, then the watermark if it is past the last of them. */
    method Serialize(reply: NativeReply, ns: int) returns (r: Result<seq<bytes>, InputError>)
      ensures r == ReplyBytes(reply, maxRecordBytes, streamName, ns)
    {
      hide VersionGroup.Group, SerializeVersionEnd;
      var serialized: seq<bytes> := [];
      var lastGroupVersion := -1;
      var i := 0;
      while i < |reply.groups|
        invariant 0 <= i <= |reply.groups|
        invariant GroupsBytes(reply.groups[..i], maxRecordBytes, streamName, ns) == Ok(serialized)
        invariant lastGroupVersion == LastVersion(reply.groups[..i])
      {
        var group := reply.groups[i];
        var records :=
          VersionGroup.SerializeVersionGroup(group.mutations, group.version, maxRecordBytes, streamName, ns);
        assert reply.groups[..i + 1][..i] == reply.groups[..i];
        if records.Err? {
          PrefixFails(reply.groups, i + 1, maxRecordBytes, streamName, ns);
          return Err(records.error);
        }
        serialized := serialized + records.value;
        lastGroupVersion := group.version;
        i := i + 1;
      }
      assert reply.groups[..i] == reply.groups;
      if reply.watermark >= 0 && reply.watermark > lastGroupVersion {
        var end := SerializeVersionEnd(reply.watermark, 0, streamName, ns);
        if end.Err? {
          return Err(end.error);
        }
        if |end.value| > maxRecordBytes {
          return Err(TooLarge(None, |end.value|, maxRecordBytes));
        }
        serialized := serialized + [end.value];
      }
      assert serialized + [] == serialized;
      return Ok(serialized);
    }

    /** Why an acknowledgement is refused without asking FoundationDB. */
    function AckRefusal(): Option<Exc>
      reads this
    {
      if isClosed then Some(CdcClosed)
      else if deliveryFailed then Some(CdcError(Unserialized))
      else if !awaitingAck then Some(CdcError(NothingToAcknowledge))
      else None
    }

    method Acknowledge() returns (r: Outcome<()>, ghost lands: bool)
      requires Valid() && (consumer || isClosed)
      modifies this`awaitingAck, world`watermark, world`faults, world`ackErrors
      ensures Valid() && world.faults >= old(world.faults)
      ensures old(AckRefusal()).None? && r.Err? ==>
        world.faults > old(world.faults) && world.ackErrors == old(world.ackErrors) + [r.error]
      ensures old(AckRefusal()).Some? || r.Ok? ==> world.ackErrors == old(world.ackErrors)
      ensures old(AckRefusal()).Some? ==>
        r == Err(old(AckRefusal()).value) && !lands && unchanged(this) && world.watermark == old(world.watermark)
      ensures old(AckRefusal()).None? ==>
        && (r.Err? ==> FromFdb(r.error)) && (r.Ok? ==> lands)
        && world.watermark == (if lands then Max(old(world.watermark), world.position) else old(world.watermark))
        && awaitingAck == r.Err?
    {
      lands := false;
      var refusal := AckRefusal();
      if refusal.Some? {
        return Err(refusal.value), lands;
      }
      r, lands := world.Acknowledge();
      if r.Err? {
        return;
      }
      awaitingAck := false;
    }

    method GetPosition() returns (r: Outcome<int>)
      requires Valid() && (consumer || isClosed)
      modifies world`faults
      ensures world.faults >= old(world.faults)
      ensures !isClosed && r.Err? ==> world.faults > old(world.faults)
      ensures isClosed ==> r == Err(CdcClosed)
      ensures !isClosed ==> r == Ok(world.position) || (r.Err? && FromFdb(r.error))
    {
      if isClosed {
        return Err(CdcClosed);
      }
      r := world.GetPosition();
    }

    /** Closes without acknowledging; the native close may raise. */
    method Close() returns (r: Outcome<()>)
      requires Valid()
      modifies this`isClosed, this`consumer
      ensures Valid() && isClosed && !consumer
    {
      isClosed := true;
      var open := consumer;
      consumer := false;
      r := Ok(());
      if open {
        r := world.CloseConsumer();
      }
    }
  }

  lemma IdleIsWellFormed()
    ensures WellFormed(NativeReply([], -1))
  {
  }

  /** An error in one group is the error of the reply. */
  lemma {:induction false} PrefixFails(gs: seq<CommitGroup>, n: nat, budget: int, name: Name, ns: int)
    requires n <= |gs| && GroupsBytes(gs[..n], budget, name, ns).Err?
    ensures GroupsBytes(gs, budget, name, ns) == GroupsBytes(gs[..n], budget, name, ns)
    decreases |gs|
  {
    if n == |gs| {
      assert gs[..n] == gs;
    } else {
      assert gs[..|gs| - 1][..n] == gs[..n];
      PrefixFails(gs[..|gs| - 1], n, budget, name, ns);
    }
  }
}
