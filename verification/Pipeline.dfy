/**
 One reply at a time: poll, produce, commit or flush, save the cursor, acknowledge; and where each failure leaves off.

 The methods follow the source; after each call into a component, and with each flag, they record the action in the
 history of the world, where it must be enabled. So every run of the pipeline is a run of the protocol.
 */
module Pipelines {
  import opened Prelude
  import opened Errors
  import opened Messages
  import opened Stream
  import opened Protocol
  import opened ProtocolSafety
  import opened RunTheorems
  import opened Environment
  import opened Replies
  import opened Producers
  import opened Listeners
  import opened Moves
  import CursorFile

  /** The listener is where the history says. */
  ghost predicate ListenerFollows(world: World, listener: MutationListener, lst: Option<Lst>)
    reads world`position, listener
  {
    && listener.world == world && listener.streamName == world.cfg.streamName
    && listener.Valid() && listener.consumer && !listener.isClosed
    && lst.Some?
    && lst.value.position == world.position
    && lst.value.awaitingAck == listener.awaitingAck
    && lst.value.deliveryFailed == listener.deliveryFailed
  }

  /** So is the producer, with the queue and the transaction of its native one. */
  ghost predicate ProducerFollows(world: World, producer: MutationProducer, prd: Option<Prd>)
    reads world`log, world`inflight, world`broken, world`buffer, world`requested, world`landed, producer
  {
    && producer.world == world && producer.Valid()
    && prd.Some?
    && var p := prd.value;
    && p.transactional == producer.transactional && p.closed == producer.closed
    && (!p.closed ==>
          && p.txnOpen == producer.txnOpen && p.fatal == producer.fatal
          && p.failed == (producer.deliveryErrors != [])
          && QueueAgrees(p, world.inflight, world.broken)
          && (p.txnOpen ==>
                world.buffer == p.handed && world.requested == p.requested && world.landed == p.landed))
  }

  /** Closes the producer; what it leaves behind is already accounted for. */
  method ShutProducer(world: World, producer: MutationProducer)
    requires world.Valid() && world.Agrees() && ProducerFollows(world, producer, world.now.prd) && Idle(world.now)
    modifies producer`closed, producer`txnOpen, producer`deliveryErrors, producer`fatal
    modifies world`log, world`inflight, world`broken, world`landed, world`faults, world`aborts, world`acts, world`now
    ensures world.faults >= old(world.faults)
    ensures world.aborts == old(world.aborts) + if old(!producer.closed && producer.txnOpen) then 1 else 0
    ensures world.Valid() && world.Agrees() && ProducerFollows(world, producer, world.now.prd) && Idle(world.now)
    ensures producer.closed && world.now.lst == old(world.now.lst)
    ensures old(producer.fatal) ==> producer.fatal
  {
    hide Run, Exec, QueueAgrees, Next, CanLeave, Leaves, Landing, Enabled, Apply;
    ghost var inflight, broken := world.inflight, world.broken;
    ghost var buffer, requested, landed := world.buffer, world.requested, world.landed;
    ghost var open, log := !producer.closed, world.log;
    ghost var sent, lands := producer.Close();
    if open {
      MayClose(world.cfg, world.now, inflight, broken, buffer, requested, landed, sent, lands);
      assert log + (inflight[..sent] + if lands && !landed then buffer else [])
          == log + inflight[..sent] + if lands && !landed then buffer else [];
      world.Do(Action.CloseProducer(sent, lands));
    }
  }

  class BridgePipeline {
    const world: World
    const listener: MutationListener
    const producer: MutationProducer
    const commitRetries: nat
    const ackRetries: nat
    var pendingCount: nat
    var deliveredUnacked: bool
    var checkpointed: bool
    var commitOutstanding: bool

    // ----------------------------------------------- the state and its history

    ghost predicate Coupled()
      reads world, listener, producer
    {
      && world.Valid() && world.Agrees()
      && ListenerFollows(world, listener, world.now.lst) && ProducerFollows(world, producer, world.now.prd)
    }

    ghost predicate FlagsAgree()
      reads `commitOutstanding, `deliveredUnacked, `checkpointed, world`now
    {
      && commitOutstanding == world.now.commitOutstanding
      && deliveredUnacked == world.now.deliveredUnacked
      && checkpointed == world.now.checkpointed
    }

    ghost predicate Valid()
      reads this, world, listener, producer
    {
      && Coupled() && FlagsAgree() && commitRetries >= 1 && ackRetries >= 1
      && (commitOutstanding ==>
            listener.awaitingAck && producer.transactional && !producer.closed && !deliveredUnacked)
      && (deliveredUnacked ==> listener.awaitingAck)
      && (checkpointed ==> deliveredUnacked)
    }

    /** Between two steps: nothing to do, or a delivery to finish that can be finished. */
    ghost predicate Live()
      reads this, listener, producer, world`now
    {
      && !producer.closed && !listener.deliveryFailed
      && (listener.awaitingAck ==> commitOutstanding || deliveredUnacked)
      && (commitOutstanding ==> producer.txnOpen)
      && (producer.txnOpen ==> commitOutstanding)
      && (producer.transactional ==> producer.txnInitialized)
      && (!producer.transactional ==> producer.deliveryErrors == [])
      && (commitOutstanding || deliveredUnacked ==>
            world.now.lst.Some? && pendingCount == |world.now.lst.value.reply|)
    }

    /** Live, and nothing that only a rebuild clears stands in the way of the next step. */
    ghost predicate Resumable()
      reads this, listener, producer, world`now
    {
      Live() && !producer.fatal
    }

    /** `Bridge._needs_rebuild`, while there is a pipeline. */
    predicate NeedsRebuild(e: Exc)
      reads this, listener, producer
    {
      || producer.closed || producer.fatal || listener.deliveryFailed
      || (listener.awaitingAck && !commitOutstanding && (e.KafkaException? || e.BufferError?))
    }

    /** The refusal of a producer that has been marked fatal meanwhile. */
    ghost predicate BecameFatal(e: Exc)
      reads producer
    {
      e == RuntimeError(ProducerFatal) && producer.fatal
    }

    constructor (world: World, listener: MutationListener, producer: MutationProducer,
                 commitRetries: nat, ackRetries: nat)
      ensures this.world == world && this.listener == listener && this.producer == producer
      ensures this.commitRetries == commitRetries && this.ackRetries == ackRetries
      ensures !commitOutstanding && !deliveredUnacked && !checkpointed
    {
      this.world, this.listener, this.producer := world, listener, producer;
      this.commitRetries, this.ackRetries := commitRetries, ackRetries;
      pendingCount, deliveredUnacked, checkpointed, commitOutstanding := 0, false, false, false;
    }

    // -------------------------------------------------------------- producing

    /** The records of the polled reply are being handed to the producer. */
    ghost predicate Producing(records: seq<RecordMsg>)
      reads this, world, listener, producer
    {
      && Valid() && Idle(world.now) && listener.awaitingAck
      && world.now.lst.value.reply == CarriesAll(records)
      && (producer.transactional ==> producer.txnOpen)
    }

    /** The producer takes records: it is open, not fatal, and no error of its own sticks. */
    ghost predicate CanProduce()
      reads producer
    {
      !producer.closed && !producer.fatal && (!producer.transactional ==> producer.deliveryErrors == [])
    }

    /** One record of the reply. */
    method ProduceOne(record: RecordMsg) returns (r: Outcome<()>)
      requires Valid() && Idle(world.now) && listener.awaitingAck
      requires producer.transactional ==> producer.txnOpen
      requires var s := world.now;
               |s.prd.value.handed| < |s.lst.value.reply| && s.lst.value.reply[|s.prd.value.handed|] == Carries(record)
      modifies producer`accepted, producer`deliveryErrors, producer`fatal
      modifies world`log, world`inflight, world`broken, world`buffer, world`faults, world`acts, world`now
      ensures world.faults >= old(world.faults)
      ensures old(CanProduce()) && world.faults == old(world.faults) ==> r.Ok? && CanProduce()
      ensures r.Ok? ==> producer.accepted == old(producer.accepted) + [Carries(record)]
      ensures Valid() && Idle(world.now)
      ensures world.now.lst == old(world.now.lst)
      ensures r.Ok? ==> world.now.prd.value.handed == old(world.now.prd.value.handed) + [Carries(record)]
      ensures r.Ok? ==> !producer.closed
      ensures producer.closed == old(producer.closed)
      ensures r.Err? && r.error.RuntimeError? && !producer.closed ==> BecameFatal(r.error)
      ensures r.Err? ==> r.error.KafkaException? || r.error.BufferError? || r.error.RuntimeError?
    {
      hide Run, Exec, ConsumerReads, EncodeRecord, QueueAgrees, Next, CanPump;
      hide Enabled, Apply;
      hide World.Valid, Accept, Pumped, Offered;
      ghost var p, inflight, broken := world.now.prd.value, world.inflight, world.broken;
      OnlyTransactional();
      ghost var e;
      r, e := producer.Produce(record);
      if e.reached {
        ghost var rec := Carries(record);
        ghost var error := producer.deliveryErrors != [];
        assert inflight + [] == inflight;
        NoteProduce(p, rec, e, inflight, broken, error);
      }
    }

    /** Enters what a producer that took the record did with it and with its queue, `inflight` before. */
    ghost method NoteProduce(p: Prd, rec: Rec, e: Effect, inflight: seq<Rec>, broken: bool, error: bool)
      requires world.Valid() && Idle(world.now) && ListenerReady(world.now)
      requires world.now.prd == Some(p) && Usable(p) && (if p.transactional then p.txnOpen else !p.failed)
      requires |p.handed| < |world.now.lst.value.reply| && rec == world.now.lst.value.reply[|p.handed|]
      requires var queue := Queue(p, inflight, if e.accepted then Some(rec) else None);
               && QueueAgrees(p, inflight, broken)
               && e.sent + e.dropped <= |queue| && (broken ==> e.sent == 0) && (e.dropped > 0 ==> error)
               && world.inflight == queue[e.sent + e.dropped..] && world.broken == (broken || e.dropped > 0)
      modifies world`acts, world`now
      ensures world.Valid() && world.now.prd.Some?
      ensures var queue := Queue(p, inflight, if e.accepted then Some(rec) else None);
              world.now == old(world.now).(log := old(world.now.log) + queue[..e.sent], prd := world.now.prd)
      ensures var q := world.now.prd.value;
              && QueueAgrees(q, world.inflight, world.broken)
              && q.handed == (if e.accepted then p.handed + [rec] else p.handed)
              && q.transactional == p.transactional && q.closed == p.closed && q.txnOpen == p.txnOpen
              && q.requested == p.requested && q.landed == p.landed
              && q.failed == (p.failed || error) && q.fatal == (p.fatal || producer.fatal)
    {
      hide Run, Exec, QueueAgrees, Next, CanPump, Enabled, Apply, Accept, Pumped, Offered;
      ServeAgrees(p, if e.accepted then Some(rec) else None, inflight, broken, e, error, producer.fatal);
      MayProduce(world.cfg, world.now, rec, e, error, producer.fatal);
      world.Do(Action.Produce(rec, e.accepted, e.sent, e.dropped, error, producer.fatal));
    }

    /** Hands over every record of the reply, in order, or stops at the first that is refused. */
    method ProduceAll(records: seq<RecordMsg>) returns (r: Outcome<()>)
      requires Producing(records) && world.now.prd.value.handed == []
      modifies producer`accepted, producer`deliveryErrors, producer`fatal
      modifies world`log, world`inflight, world`broken, world`buffer, world`faults, world`acts, world`now
      ensures world.faults >= old(world.faults)
      ensures old(CanProduce()) && world.faults == old(world.faults) ==> r.Ok? && CanProduce()
      ensures r.Ok? ==> producer.accepted == old(producer.accepted) + CarriesAll(records)
      ensures Producing(records) && world.now.lst == old(world.now.lst)
      ensures r.Ok? ==> world.now.prd.value.handed == world.now.lst.value.reply
      ensures producer.closed == old(producer.closed)
      ensures r.Err? && r.error.RuntimeError? && !producer.closed ==> BecameFatal(r.error)
      ensures r.Err? ==> r.error.KafkaException? || r.error.BufferError? || r.error.RuntimeError?
    {
      hide QueueAgrees, Carries, Run, Exec;
      var i := 0;
      while i < |records|
        invariant 0 <= i <= |records|
        invariant Producing(records) && world.now.lst == old(world.now.lst)
        invariant world.now.prd.value.handed == CarriesAll(records)[..i]
        invariant producer.accepted == old(producer.accepted) + CarriesAll(records)[..i]
        invariant producer.closed == old(producer.closed)
        invariant world.faults >= old(world.faults)
        invariant old(CanProduce()) && world.faults == old(world.faults) ==> CanProduce()
      {
        r := ProduceOne(records[i]);
        if r.Err? {
          return;
        }
        i := i + 1;
      }
      return Ok(());
    }

    method Flush() returns (r: Outcome<()>)
      requires Valid() && Idle(world.now)
      modifies producer`deliveryErrors, producer`fatal
      modifies world`log, world`inflight, world`broken, world`faults, world`acts, world`now
      ensures world.faults >= old(world.faults)
      ensures old(CanProduce() && !producer.transactional) && world.faults == old(world.faults) ==>
        r.Ok? && CanProduce()
      ensures Valid() && Idle(world.now) && world.now.lst == old(world.now.lst)
      ensures world.now.prd.value.handed == old(world.now.prd.value.handed)
      ensures r.Ok? ==> !producer.closed && world.now.prd.value.pending == 0 && producer.deliveryErrors == []
      ensures producer.closed == old(producer.closed)
      ensures r.Err? ==> r.error.RuntimeError? || r.error.KafkaException? || r.error.TimeoutError?
      ensures r.Err? && r.error.RuntimeError? && !producer.closed ==> BecameFatal(r.error)
    {
      hide MutationProducer.Valid, ListenerFollows, Run, Exec, QueueAgrees, Next, CanPump;
      hide Enabled, Apply, Accept, Pumped, Offered;
      ghost var p, inflight, broken := world.now.prd.value, world.inflight, world.broken;
      ghost var e;
      r, e := producer.FlushOrRaise();
      if e.reached {
        ghost var error := producer.deliveryErrors != [];
        FlushAgrees(p, inflight, broken, e, error, producer.fatal);
        MayFlush(world.cfg, world.now, e, error, producer.fatal);
        world.Do(Action.Flush(e.sent, e.dropped, error, producer.fatal));
      }
    }

    /** Publishes outside a transaction; a failure closes the producer. */
    method ProduceAndFlush(records: seq<RecordMsg>) returns (r: Outcome<()>)
      requires Producing(records) && world.now.prd.value.handed == [] && !producer.transactional
      modifies this`deliveredUnacked
      modifies producer`accepted, producer`deliveryErrors, producer`fatal, producer`closed, producer`txnOpen
      modifies world`log, world`inflight, world`broken, world`buffer, world`landed, world`faults, world`aborts
      modifies world`acts, world`now
      ensures world.faults >= old(world.faults) && world.aborts == old(world.aborts)
      ensures old(CanProduce()) && world.faults == old(world.faults) ==> r.Ok? && CanProduce()
      ensures r.Ok? ==> producer.accepted == old(producer.accepted) + CarriesAll(records)
      ensures Valid() && world.now.lst == old(world.now.lst)
      ensures r.Ok? <==> deliveredUnacked
      ensures r.Ok? ==> !producer.closed && !producer.txnOpen && producer.deliveryErrors == []
      ensures r.Err? ==> producer.closed
      ensures r.Err? ==>
        r.error.KafkaException? || r.error.BufferError? || r.error.TimeoutError? || r.error.RuntimeError?
      ensures r.Err? && r.error.RuntimeError? && !old(producer.closed) ==>
        BecameFatal(r.error)
    {
      hide World.Agrees, ListenerFollows, ProducerFollows, Run, Exec, QueueAgrees, Enabled, Apply;
      OnlyTransactional();
      r := ProduceAll(records);
      if r.Ok? {
        r := Flush();
      }
      if r.Err? {
        ShutProducer(world, producer);
        return;
      }
      MarkDelivered();
      OnlyTransactional();
    }

    lemma OnlyTransactional()
      requires Coupled()
      ensures producer.txnOpen ==> producer.transactional
    {
    }

    method MarkDelivered()
      requires Valid() && Idle(world.now) && listener.awaitingAck && !producer.closed && !producer.transactional
      requires world.now.prd.value.handed == world.now.lst.value.reply
      requires world.now.prd.value.pending == 0 && producer.deliveryErrors == []
      modifies this`deliveredUnacked, world`acts, world`now
      ensures Valid() && deliveredUnacked && world.now.lst == old(world.now.lst)
    {
      hide Run, Exec, QueueAgrees, Enabled, Apply;
      deliveredUnacked := true;
      MayMarkDelivered(world.cfg, world.now);
      world.Do(Action.MarkDelivered);
    }

    // ------------------------------------------------------- what is tried again

    /**
     The commits since `before`: each but the last was tried again after an error that called for nothing else. A commit
     that stays outstanding has used up its budget on such errors; one that is given up has not ended with one, unless
     the producer refused to go on.
     */
    ghost predicate CommitsTried(before: seq<Exc>, ok: bool, refused: bool)
      reads `commitOutstanding, `deliveredUnacked, world`commitErrors
    {
      && before <= world.commitErrors
      && var errors := Raised(before, world.commitErrors);
      && Tried(errors, RETRY_ONLY, commitRetries)
      && (!ok && commitOutstanding ==> AllAre(errors, RETRY_ONLY) && |errors| == commitRetries)
      && (EndsWith(errors, RETRY_ONLY) ==> ok || commitOutstanding || deliveredUnacked || refused)
    }

    ghost predicate CommitEndedOtherwise(before: seq<Exc>)
      reads world`commitErrors
    {
      before <= world.commitErrors && EndsOtherwise(Raised(before, world.commitErrors), RETRY_ONLY)
    }

    /** The acknowledgements since `before`: only overload was tried again, and as often as the budget allows. */
    ghost predicate AcksTried(before: seq<Exc>, ok: bool)
      reads world`ackErrors
    {
      && before <= world.ackErrors
      && var errors := Raised(before, world.ackErrors);
      && Tried(errors, CdcRetryable, ackRetries)
      && (EndsWith(errors, CdcRetryable) ==> ok || |errors| == ackRetries)
    }

    lemma NothingTried(ok: bool, refused: bool)
      ensures !commitOutstanding || ok ==> CommitsTried(world.commitErrors, ok, refused)
      ensures AcksTried(world.ackErrors, ok)
    {
    }

    // ----------------------------------------------------------- transactions

    /** What the history says of every state, this one included. */
    lemma Invariant() returns (n: nat)
      requires world.Valid()
      ensures InvAt(world.cfg, world.now, n)
    {
      hide InvAt;
      n := RunKeepsInv(world.cfg, world.start, world.acts);
    }

    /** The producer has been marked fatal, here or by a callback. */
    ghost method NoteFatal()
      requires world.Valid() && world.now.prd.Some? && QueueAgrees(world.now.prd.value, world.inflight, world.broken)
      modifies world`acts, world`now
      ensures world.Valid() && world.now == old(world.now).(prd := Some(old(world.now.prd.value).(fatal := true)))
      ensures QueueAgrees(world.now.prd.value, world.inflight, world.broken)
    {
      hide MutationProducer.Valid, ListenerFollows, Run, Exec, Enabled, Apply, QueueAgrees;
      ghost var p := world.now.prd.value;
      MayFatal(world.cfg, world.now);
      world.Do(Fatal);
      QueueSame(p, world.now.prd.value, world.inflight, world.broken);
    }

    method Abort() returns (r: Outcome<()>)
      requires Valid() && !commitOutstanding && !deliveredUnacked && !producer.closed
      modifies producer`txnOpen, producer`fatal, producer`deliveryErrors
      modifies world`log, world`landed, world`faults, world`aborts, world`acts, world`now
      ensures world.faults >= old(world.faults)
      ensures Valid() && !producer.closed && world.now.lst == old(world.now.lst)
      ensures r.Err? ==> r.error.KafkaException? || r.error.RuntimeError?
      ensures r.Err? && old(producer.txnOpen) ==>
        producer.fatal && (r.error.RuntimeError? ==> r.error == RuntimeError(ProducerFatal))
      ensures r.Ok? ==> !producer.txnOpen
    {
      hide ListenerFollows, Run, Exec, QueueAgrees, Enabled, Apply;
      ghost var p := world.now.prd.value;
      ghost var reached, lands;
      r, reached, lands := producer.AbortTransaction();
      if reached {
        MayAbort(world.cfg, world.now, lands, r.Ok?);
        world.Do(Action.Abort(lands, r.Ok?));
        QueueSame(p, world.now.prd.value, world.inflight, world.broken);
        NoteIfFatal();
      }
    }

    /** The same, if it has been. */
    ghost method NoteIfFatal()
      requires world.Valid() && world.now.prd.Some? && QueueAgrees(world.now.prd.value, world.inflight, world.broken)
      modifies world`acts, world`now
      ensures world.Valid()
      ensures var p := old(world.now.prd.value);
              world.now == old(world.now).(prd := Some(p.(fatal := p.fatal || producer.fatal)))
      ensures QueueAgrees(world.now.prd.value, world.inflight, world.broken)
    {
      hide Run, Exec, Enabled, Apply, QueueAgrees;
      if producer.fatal {
        NoteFatal();
      }
    }

    /** Aborts the transaction, unless the error is fatal; returns what is to be raised. */
    method AbortAndRaise(exc: Exc) returns (e: Exc)
      requires Valid() && !commitOutstanding && !deliveredUnacked && !producer.closed
      modifies producer`txnOpen, producer`fatal, producer`deliveryErrors
      modifies world`log, world`landed, world`faults, world`aborts, world`acts, world`now
      ensures world.faults >= old(world.faults)
      ensures Valid() && !producer.closed && world.now.lst == old(world.now.lst)
      ensures IsFatalKafka(exc) ==> e == exc && producer.fatal
      ensures e == exc || e.KafkaException? || e.RuntimeError?
      ensures old(producer.txnOpen) ==> producer.fatal || (e == exc && !producer.txnOpen)
      ensures old(producer.txnOpen) && e != exc && e.RuntimeError? ==> e == RuntimeError(ProducerFatal)
    {
      hide Run, Exec, QueueAgrees, Enabled, Apply;
      if IsFatalKafka(exc) {
        producer.MarkFatal();
        NoteFatal();
        return exc;
      }
      var aborted := Abort();
      return if aborted.Err? then aborted.error else exc;
    }

    /** A transaction can be begun: the producer is open, initialized, and not in one. */
    predicate CanBegin()
      reads producer
    {
      !producer.closed && producer.txnInitialized && !producer.txnOpen
    }

    method Begin() returns (r: Outcome<()>)
      requires Valid() && Idle(world.now) && listener.awaitingAck && producer.transactional
      requires world.now.prd.value.handed == []
      requires !world.now.prd.value.requested && !world.now.prd.value.landed
      modifies producer`fatal, producer`txnOpen
      modifies world`buffer, world`requested, world`landed, world`faults, world`acts, world`now
      ensures world.faults >= old(world.faults)
      ensures old(CanBegin() && !producer.fatal) && world.faults == old(world.faults) ==> r.Ok? && !producer.fatal
      ensures Valid() && Idle(world.now) && world.now.lst == old(world.now.lst)
      ensures world.now.prd.value.handed == []
      ensures r.Ok? ==> !producer.closed && producer.txnOpen
      ensures r.Err? ==> producer.txnOpen == old(producer.txnOpen)
      ensures r.Err? ==> r.error.KafkaException? || r.error.RuntimeError?
      ensures r.Err? && r.error.RuntimeError? && old(CanBegin()) ==> BecameFatal(r.error)
    {
      hide World.Valid, Run, Exec, QueueAgrees, Enabled, Apply;
      ghost var p := world.now.prd.value;
      r := producer.BeginTransaction();
      if r.Ok? {
        MayBegin(world.cfg, world.now);
        world.Do(Action.Begin);
        QueueSame(p, world.now.prd.value, world.inflight, world.broken);
      }
      if !producer.closed {
        NoteIfFatal();
      }
    }

    /** Opens a transaction and produces the reply in it; the commit comes later. */
    method BeginAndProduce(records: seq<RecordMsg>) returns (r: Outcome<()>)
      requires Valid() && Idle(world.now) && listener.awaitingAck && producer.transactional
      requires world.now.lst.value.reply == CarriesAll(records) && world.now.prd.value.handed == []
      requires !world.now.prd.value.requested && !world.now.prd.value.landed
      modifies this`commitOutstanding
      modifies producer`accepted, producer`deliveryErrors, producer`fatal, producer`txnOpen
      modifies world`log, world`inflight, world`broken, world`buffer, world`requested, world`landed
      modifies world`faults, world`aborts, world`acts, world`now
      ensures world.faults >= old(world.faults) && (r.Ok? ==> world.aborts == old(world.aborts))
      ensures old(CanBegin() && !producer.fatal) && world.faults == old(world.faults) ==> r.Ok? && !producer.fatal
      ensures r.Ok? ==> producer.accepted == old(producer.accepted) + CarriesAll(records)
      ensures Valid() && world.now.lst == old(world.now.lst)
      ensures r.Ok? <==> commitOutstanding
      ensures r.Ok? ==> producer.txnOpen
      ensures r.Err? && old(CanBegin()) && !producer.fatal ==> !producer.txnOpen
      ensures r.Err? && old(CanBegin()) ==> producer.fatal || r.error.KafkaException? || r.error.BufferError?
      ensures r.Err? && IsSticky(r.error) && old(CanBegin()) ==> BecameFatal(r.error)
    {
      hide Run, Exec, Coupled;
      r := Begin();
      if r.Err? {
        return;
      }
      r := ProduceAll(records);
      if r.Err? {
        if r.error.KafkaException? || r.error.BufferError? {
          var e := AbortAndRaise(r.error);
          r := Err(e);
        }
        return;
      }
      AwaitCommit();
    }

    /** Retries a retriable commit; gives it up, and aborts, when the transaction is dead. */
    method CommitWithRetry() returns (r: Outcome<()>)
      requires Valid() && commitOutstanding && !deliveredUnacked && !producer.closed
      modifies this`commitOutstanding
      modifies producer`txnOpen, producer`fatal, producer`deliveryErrors
      modifies world`log, world`requested, world`landed, world`faults, world`commitErrors, world`aborts
      modifies world`acts, world`now
      ensures world.faults >= old(world.faults) && old(world.commitErrors) <= world.commitErrors
      ensures r.Ok? ==> world.aborts == old(world.aborts)
      ensures old(producer.txnOpen && !producer.fatal) && world.faults == old(world.faults) ==> r.Ok? && !producer.fatal
      ensures var errors := Raised(old(world.commitErrors), world.commitErrors);
              && Tried(errors, RETRY_ONLY, commitRetries)
              && (r.Ok? ==> AllAre(errors, RETRY_ONLY) && |errors| < commitRetries)
              && (r.Err? && commitOutstanding ==> AllAre(errors, RETRY_ONLY) && |errors| == commitRetries)
              && (r.Err? && !commitOutstanding ==> EndsOtherwise(errors, RETRY_ONLY) || r.error.RuntimeError?)
              && (EndsWith(errors, RETRY_ONLY) ==> r.Ok? || commitOutstanding || r.error.RuntimeError?)
              && (world.aborts > old(world.aborts) ==> EndsOtherwise(errors, RETRY_ONLY))
      ensures Valid() && !producer.closed && world.now.lst == old(world.now.lst)
      ensures r.Ok? ==> commitOutstanding && !producer.txnOpen
      ensures r.Err? && commitOutstanding ==> IsRetriableCommit(r.error) && producer.txnOpen
      ensures r.Err? && commitOutstanding ==> |world.acts| == |old(world.acts)| + commitRetries
      ensures r.Err? && !commitOutstanding && old(producer.txnOpen) ==> producer.fatal || r.error.KafkaException?
      ensures r.Err? && !commitOutstanding && old(producer.txnOpen) ==> producer.fatal || !producer.txnOpen
      ensures r.Err? && IsSticky(r.error) && old(producer.txnOpen) ==> BecameFatal(r.error)
    {
      hide Run, Exec, Coupled;
      hide Raised, AllAre, Tried, EndsWith, EndsOtherwise;
      ghost var before := world.commitErrors;
      TriedNone(before, RETRY_ONLY, commitRetries);
      var lastExc: Option<Exc> := None;
      var attempt := 1;
      while attempt <= commitRetries
        invariant 1 <= attempt <= commitRetries + 1
        invariant Valid() && commitOutstanding && !producer.closed && world.now.lst == old(world.now.lst)
        invariant producer.txnOpen == old(producer.txnOpen)
        invariant attempt > 1 ==> lastExc.Some?
        invariant |world.acts| == |old(world.acts)| + attempt - 1
        invariant lastExc.Some? ==> IsRetriableCommit(lastExc.value) && producer.txnOpen
        invariant world.aborts == old(world.aborts) && world.faults >= old(world.faults)
        invariant attempt > 1 ==> world.faults > old(world.faults)
        invariant attempt == 1 ==> producer.fatal == old(producer.fatal)
        invariant before <= world.commitErrors && AllAre(Raised(before, world.commitErrors), RETRY_ONLY)
        invariant |Raised(before, world.commitErrors)| == attempt - 1
      {
        ghost var after := world.commitErrors;
        AllAreTried(Raised(before, after), RETRY_ONLY, commitRetries);
        r := Commit();
        if r.Ok? {
          assert after + [] == after;
          return;
        }
        if r.error.KafkaException? {
          TriedAgain(before, after, RETRY_ONLY, r.error, commitRetries);
        } else {
          assert after + [] == after;
        }
        if !IsRetriableCommit(r.error) {
          GiveUp();
          if r.error.KafkaException? {
            var e := AbortAndRaise(r.error);
            r := Err(e);
          }
          return;
        }
        lastExc := Some(r.error);
        attempt := attempt + 1;
      }
      AllAreTried(Raised(before, world.commitErrors), RETRY_ONLY, commitRetries);
      return Err(lastExc.value);
    }

    method GiveUp()
      requires Valid() && commitOutstanding
      modifies this`commitOutstanding, world`acts, world`now
      ensures Valid() && !commitOutstanding && world.now.lst == old(world.now.lst)
    {
      hide MutationProducer.Valid, Run, Exec, QueueAgrees, Enabled, Apply;
      commitOutstanding := false;
      MayGiveUpCommit(world.cfg, world.now);
      world.Do(GiveUpCommit);
    }

    method AwaitCommit()
      requires Valid() && Idle(world.now) && listener.awaitingAck && !producer.closed && producer.txnOpen
      requires world.now.prd.value.handed == world.now.lst.value.reply
      modifies this`commitOutstanding, world`acts, world`now
      ensures Valid() && commitOutstanding && world.now.lst == old(world.now.lst)
    {
      hide Run, Exec, QueueAgrees, Enabled, Apply;
      commitOutstanding := true;
      MayAwaitCommit(world.cfg, world.now);
      world.Do(Action.AwaitCommit);
    }

    method Commit() returns (r: Outcome<()>)
      requires Valid() && commitOutstanding && !producer.closed
      modifies producer`txnOpen, producer`fatal, producer`deliveryErrors
      modifies world`log, world`requested, world`landed, world`faults, world`commitErrors, world`acts, world`now
      ensures world.faults >= old(world.faults)
      ensures old(producer.txnOpen && !producer.fatal) && world.faults == old(world.faults) ==> r.Ok? && !producer.fatal
      ensures world.commitErrors ==
        old(world.commitErrors) + if r.Err? && r.error.KafkaException? then [r.error] else []
      ensures Valid() && !producer.closed && world.now.lst == old(world.now.lst)
      ensures r.Ok? ==> !producer.txnOpen
      ensures r.Err? ==> producer.txnOpen == old(producer.txnOpen)
      ensures r.Err? ==> r.error.KafkaException? || r.error.RuntimeError?
      ensures r.Err? && r.error.KafkaException? ==>
        producer.txnOpen && |world.acts| == |old(world.acts)| + 1 && world.faults > old(world.faults)
      ensures r.Err? && r.error.RuntimeError? && producer.txnOpen ==> BecameFatal(r.error)
    {
      hide MutationProducer.Valid, ListenerFollows, Run, Exec, QueueAgrees, Enabled, Apply;
      ghost var p := world.now.prd.value;
      ghost var reached, lands;
      r, reached, lands := producer.CommitTransaction();
      if reached {
        MayCommit(world.cfg, world.now, lands, r.Ok?, producer.fatal);
        world.Do(Action.Commit(lands, r.Ok?, producer.fatal));
        QueueSame(p, world.now.prd.value, world.inflight, world.broken);
      }
    }

    // -------------------------------------------- the cursor and the acknowledgement

    /** Saves the position of the delivered reply. */
    method Checkpoint() returns (r: Outcome<()>)
      requires Valid() && deliveredUnacked && !checkpointed
      modifies this`checkpointed, world`disk, world`faults, world`acts, world`now
      ensures world.faults >= old(world.faults) && (r.Err? ==> world.faults > old(world.faults))
      ensures Valid() && world.now.lst == old(world.now.lst)
      ensures r.Ok? <==> checkpointed
      ensures r.Err? ==> FromFdb(r.error) || r.error.FileError?
    {
      hide ProducerFollows, Run, Exec, Enabled, Apply;
      var position := listener.GetPosition();
      if position.Err? {
        return Err(position.error);
      }
      r := Save(position.value);
      if r.Err? {
        return;
      }
      checkpointed := true;
      MayMarkCheckpointed(world.cfg, world.now);
      world.Do(MarkCheckpointed);
    }

    method Save(position: int) returns (r: Outcome<()>)
      requires Valid() && deliveredUnacked && !checkpointed && position == world.position
      modifies world`disk, world`faults, world`acts, world`now
      ensures world.faults >= old(world.faults) && (r.Err? ==> world.faults > old(world.faults))
      ensures Valid() && world.now.lst == old(world.now.lst)
      ensures r.Ok? ==> Saved(world.cfg, world.now, position)
      ensures r.Err? ==> r.error.FileError?
    {
      hide ProducerFollows, Run, Exec, Enabled, Apply, SavedDisk;
      ghost var stage;
      r, stage := CursorFile.Save(world, world.cfg.persist, CursorAt(world.cfg, position));
      if world.cfg.persist {
        NoteSave(world, stage);
      }
    }

    method Acknowledge() returns (r: Outcome<()>)
      requires Valid() && deliveredUnacked && checkpointed
      modifies listener`awaitingAck, world`watermark, world`faults, world`ackErrors, world`acts, world`now
      ensures world.faults >= old(world.faults) && (r.Err? ==> world.faults > old(world.faults))
      ensures world.ackErrors == old(world.ackErrors) + if r.Err? then [r.error] else []
      ensures Coupled() && FlagsAgree() && |world.acts| == |old(world.acts)| + 1
      ensures r.Err? ==> Valid() && FromFdb(r.error) && world.now.lst == old(world.now.lst)
      ensures r.Ok? ==> !listener.awaitingAck && world.watermark >= world.position
    {
      hide ProducerFollows, Run, Exec, Enabled, Apply;
      ghost var lands;
      r, lands := listener.Acknowledge();
      MayAcknowledge(world.cfg, world.now, lands, r.Ok?);
      world.Do(Action.Acknowledge(lands, r.Ok?));
    }

    /** Tries again only while FoundationDB says that it is overloaded. */
    method AcknowledgeWithRetry() returns (r: Outcome<()>)
      requires Valid() && deliveredUnacked && checkpointed
      modifies listener`awaitingAck, world`watermark, world`faults, world`ackErrors, world`acts, world`now
      ensures world.faults >= old(world.faults) && (r.Err? ==> world.faults > old(world.faults))
      ensures old(world.ackErrors) <= world.ackErrors
      ensures var errors := Raised(old(world.ackErrors), world.ackErrors);
              && Tried(errors, CdcRetryable, ackRetries)
              && (r.Ok? ==> AllAre(errors, CdcRetryable) && |errors| < ackRetries)
              && (r.Err? ==> EndsWith(errors, r.error))
              && (EndsWith(errors, CdcRetryable) ==> r.Ok? || |errors| == ackRetries)
      ensures Coupled() && FlagsAgree()
      ensures r.Err? ==> Valid() && FromFdb(r.error) && world.now.lst == old(world.now.lst)
      ensures r.Ok? ==> !listener.awaitingAck && world.watermark >= world.position
      ensures r.Err? && r.error.CdcRetryable? ==> |world.acts| == |old(world.acts)| + ackRetries
    {
      hide MutationProducer.Valid, Run, Exec, QueueAgrees, Coupled;
      hide Raised, AllAre, Tried, EndsWith, EndsOtherwise;
      ghost var before := world.ackErrors;
      TriedNone(before, CdcRetryable, ackRetries);
      var lastErr: Option<Exc> := None;
      var attempt := 1;
      while attempt <= ackRetries
        invariant 1 <= attempt <= ackRetries + 1
        invariant Valid() && world.now.lst == old(world.now.lst)
        invariant attempt > 1 ==> lastErr.Some?
        invariant |world.acts| == |old(world.acts)| + attempt - 1
        invariant world.faults >= old(world.faults) && (attempt > 1 ==> world.faults > old(world.faults))
        invariant before <= world.ackErrors && AllAre(Raised(before, world.ackErrors), CdcRetryable)
        invariant lastErr.Some? ==>
          lastErr.value.CdcRetryable? && EndsWith(Raised(before, world.ackErrors), CdcRetryable)
        invariant |Raised(before, world.ackErrors)| == attempt - 1
      {
        ghost var after := world.ackErrors;
        AllAreTried(Raised(before, after), CdcRetryable, ackRetries);
        r := Acknowledge();
        if r.Ok? {
          assert after + [] == after;
          return;
        }
        TriedAgain(before, after, CdcRetryable, r.error, ackRetries);
        if !r.error.CdcRetryable? {
          EndsAt(before, after, r.error);
          return;
        }
        lastErr := Some(r.error);
        attempt := attempt + 1;
      }
      AllAreTried(Raised(before, world.ackErrors), CdcRetryable, ackRetries);
      return Err(lastErr.value);
    }

    /** Saves the position unless that has been done, then acknowledges it. */
    method CheckpointAndAcknowledge() returns (r: Outcome<()>)
      requires Valid() && deliveredUnacked
      modifies this`checkpointed, listener`awaitingAck
      modifies world`disk, world`watermark, world`faults, world`ackErrors, world`acts, world`now
      ensures world.faults >= old(world.faults) && (r.Err? ==> world.faults > old(world.faults))
      ensures AcksTried(old(world.ackErrors), r.Ok?)
      ensures r.Err? ==> Valid() && (FromFdb(r.error) || r.error.FileError?) && world.now.lst == old(world.now.lst)
      ensures r.Ok? ==>
        && Coupled() && !checkpointed && world.now.checkpointed && world.now.deliveredUnacked
        && commitOutstanding == world.now.commitOutstanding
        && !listener.awaitingAck && world.watermark >= world.position
    {
      hide MutationProducer.Valid, Run, Exec, QueueAgrees, Coupled;
      hide Raised, AllAre, Tried, EndsWith, EndsOtherwise;
      TriedNone(world.ackErrors, CdcRetryable, ackRetries);
      if !checkpointed {
        r := Checkpoint();
        if r.Err? {
          return;
        }
      }
      r := AcknowledgeWithRetry();
      if r.Ok? {
        checkpointed := false;
      }
    }

    method MarkCommitted()
      requires Valid() && commitOutstanding && !producer.txnOpen
      modifies this`commitOutstanding, this`deliveredUnacked, world`acts, world`now
      ensures Valid() && !commitOutstanding && deliveredUnacked && world.now.lst == old(world.now.lst)
    {
      hide MutationProducer.Valid, Run, Exec, QueueAgrees, Enabled, Apply;
      commitOutstanding := false;
      deliveredUnacked := true;
      MayMarkCommitted(world.cfg, world.now);
      world.Do(Action.MarkCommitted);
    }

    method FinishReply()
      requires Coupled() && !checkpointed && world.now.checkpointed && world.now.deliveredUnacked
      requires !commitOutstanding && !world.now.commitOutstanding && !listener.awaitingAck
      requires commitRetries >= 1 && ackRetries >= 1
      modifies this`deliveredUnacked, world`acts, world`now
      ensures Valid() && !deliveredUnacked
    {
      hide MutationProducer.Valid, Run, Exec, QueueAgrees, Enabled, Apply;
      deliveredUnacked := false;
      MayFinishReply(world.cfg, world.now);
      world.Do(Action.FinishReply);
    }

    /**
     Commits if that is outstanding, then saves and acknowledges. Nothing is polled and nothing handed to Kafka here:
     neither the position nor the queue nor the open transaction is in the frame.
     */
    method FinishDelivery() returns (r: Outcome<nat>)
      requires Valid() && (commitOutstanding || deliveredUnacked)
      modifies this`commitOutstanding, this`deliveredUnacked, this`checkpointed
      modifies producer`txnOpen, producer`fatal, producer`deliveryErrors, listener`awaitingAck
      modifies world`log, world`requested, world`landed, world`disk, world`watermark, world`acts, world`now
      modifies world`faults, world`commitErrors, world`ackErrors, world`aborts
      ensures world.faults >= old(world.faults)
      ensures old(!producer.fatal && (commitOutstanding ==> producer.txnOpen)) && world.faults == old(world.faults) ==>
        r.Ok? && !producer.fatal
      ensures CommitsTried(old(world.commitErrors), r.Ok?, r.Err? && r.error.RuntimeError?)
      ensures world.aborts > old(world.aborts) ==> CommitEndedOtherwise(old(world.commitErrors))
      ensures r.Ok? ==> world.aborts == old(world.aborts)
      ensures AcksTried(old(world.ackErrors), r.Ok?)
      ensures Valid() && producer.closed == old(producer.closed)
      ensures r.Ok? ==> && r.value == pendingCount && world.watermark >= world.position && Idle(world.now)
                        && !commitOutstanding && !deliveredUnacked && !checkpointed && !listener.awaitingAck
      ensures old(Live()) && r.Ok? ==> Live()
      ensures old(Live()) && !producer.fatal && !producer.closed ==> (producer.txnOpen <==> commitOutstanding)
      ensures old(Live()) && r.Err? && commitOutstanding ==> Live()
      ensures old(Live()) && r.Err? ==> (NeedsRebuild(r.error) <==> !Resumable())
      ensures old(Live()) && r.Err? && IsSticky(r.error) ==> BecameFatal(r.error)
    {
      hide Run, Exec, Coupled;
      hide Raised, AllAre, Tried, EndsWith, EndsOtherwise;
      TriedNone(world.commitErrors, RETRY_ONLY, commitRetries);
      TriedNone(world.ackErrors, CdcRetryable, ackRetries);
      if commitOutstanding {
        var committed := CommitWithRetry();
        if committed.Err? {
          return Err(committed.error);
        }
        MarkCommitted();
      }
      var finished := CheckpointAndAcknowledge();
      if finished.Err? {
        return Err(finished.error);
      }
      FinishReply();
      return Ok(pendingCount);
    }

    // -------------------------------------------------------------------- a step

    /** What a poll can find in a live pipeline with nothing to finish. */
    method Poll() returns (r: Outcome<seq<RecordMsg>>)
      requires Valid() && Idle(world.now)
      modifies listener`awaitingAck, listener`deliveryFailed
      modifies world`position, world`polls, world`served, world`time, world`faults, world`acts, world`now
      ensures world.faults >= old(world.faults)
      ensures old(listener.PollRefusal()).None? ==>
        if world.served.Some? then
          && (r.Ok? <==> listener.Converts(world.served.value, world.time))
          && (r.Ok? ==> (r.value == [] <==> world.served.value.watermark < 0))
          && listener.deliveryFailed == r.Err?
        else
          r.Err? && world.faults > old(world.faults) && !listener.deliveryFailed
      ensures Valid() && Idle(world.now)
      ensures world.polls == old(world.polls) + if old(listener.PollRefusal()).Some? then 0 else 1
      ensures old(listener.PollRefusal()).Some? ==> r == Err(old(listener.PollRefusal()).value)
      ensures r.Err? && !listener.deliveryFailed ==>
        unchanged(listener) && world.position == old(world.position) && world.now == old(world.now)
      ensures r.Err? && old(listener.PollRefusal()).None? ==> !IsSticky(r.error)
      ensures r.Ok? && r.value == [] ==>
        !listener.awaitingAck && !listener.deliveryFailed && world.now == old(world.now)
      ensures r.Ok? && r.value != [] ==>
        && listener.awaitingAck && old(world.position) < world.position
        && world.now.lst.value.reply == CarriesAll(r.value)
        && world.now.prd.value.handed == [] && !world.now.prd.value.requested && !world.now.prd.value.landed
    {
      hide MutationProducer.Valid, ProducerFollows, Run, Exec, Enabled, Apply, ReplyEvents, Concat, Cut;
      hide MutationListener.Converts, Carries, WellFormed;
      ghost var polled;
      r, polled := listener.PollRecords();
      if polled.Some? && polled.value.watermark >= 0 {
        if r.Err? {
          MayFailToConvert(world.cfg, world.now, world.position);
          world.Do(ConsumeUnreadable(world.position));
        } else {
          NoteConsume(world.position, CarriesAll(r.value));
        }
      }
    }

    /** Records that a reply has been consumed. */
    ghost method NoteConsume(w: int, reply: seq<Rec>)
      requires world.Valid() && world.Agrees() && ProducerFollows(world, producer, world.now.prd) && Idle(world.now)
      requires var s := world.now;
               && s.lst.Some? && !s.lst.value.awaitingAck && !s.lst.value.deliveryFailed
               && s.acked <= s.lst.value.position < w
               && reply != [] && Concat(reply) == ReplyEvents(world.cfg.stream, s.lst.value.position, w)
      modifies world`acts, world`now
      ensures world.Valid() && world.Agrees() && ProducerFollows(world, producer, world.now.prd) && Idle(world.now)
      ensures world.now.lst == Some(Lst(old(world.now.lst.value.position), w, reply, true, false))
      ensures var p := world.now.prd.value; p.handed == [] && !p.requested && !p.landed
    {
      hide MutationProducer.Valid, Run, Exec, Enabled, Apply, ReplyEvents, Concat, QueueAgrees;
      ghost var s := world.now;
      NothingLeft();
      MayConsume(world.cfg, s, w, reply);
      world.Do(Consume(w, reply));
      QueueEmpty(s.prd.value, world.now.prd.value, world.inflight, world.broken);
    }

    /** While no reply awaits its acknowledgement, the producer has nothing in flight. */
    lemma NothingLeft()
      requires world.Valid() && world.now.lst.Some? && world.now.prd.Some? && !world.now.lst.value.awaitingAck
      ensures NothingInFlight(world.now.prd.value)
    {
      hide Run, Exec, LogAt, DiskBehind, LstInv, PrdInv, FlagsInv;
      var n := Invariant();
    }

    /** Polls a reply and takes it up to where its delivery can be finished. */
    method TakeUp() returns (r: Outcome<nat>)
      requires Valid() && !commitOutstanding && !deliveredUnacked
      modifies this`commitOutstanding, this`deliveredUnacked, this`pendingCount
      modifies listener`awaitingAck, listener`deliveryFailed
      modifies producer`accepted, producer`deliveryErrors, producer`fatal, producer`closed, producer`txnOpen
      modifies world`position, world`polls, world`served, world`time, world`faults, world`aborts, world`acts, world`now
      modifies world`log, world`inflight, world`broken, world`buffer, world`requested, world`landed
      ensures world.faults >= old(world.faults)
      ensures old(Live()) && world.served.Some? ==>
        (listener.deliveryFailed <==> !listener.Converts(world.served.value, world.time))
      ensures old(Live()) && r.Ok? ==> world.served.Some? && (r.value == 0 <==> world.served.value.watermark < 0)
      ensures old(Resumable()) && world.faults == old(world.faults) ==>
        && world.served.Some?
        && (listener.Converts(world.served.value, world.time) ==> r.Ok? && !producer.fatal)
      ensures r.Ok? ==> world.aborts == old(world.aborts)
      ensures r.Ok? ==> |producer.accepted| == |old(producer.accepted)| + r.value
      ensures Valid()
      ensures r.Ok? && r.value == 0 ==>
        && !commitOutstanding && !deliveredUnacked && !listener.awaitingAck && !listener.deliveryFailed
        && world.now == old(world.now) && unchanged(producer) && Idle(world.now)
      ensures r.Ok? && r.value > 0 ==>
        && (commitOutstanding || deliveredUnacked) && listener.awaitingAck
        && world.now.lst.Some? && r.value == pendingCount == |world.now.lst.value.reply|
        && old(world.position) < world.position
        && !listener.deliveryFailed && !producer.closed && (commitOutstanding ==> producer.txnOpen)
        && (deliveredUnacked ==> !producer.transactional && !producer.txnOpen && producer.deliveryErrors == [])
      ensures old(Live()) && r.Ok? ==> Live()
      ensures old(Live()) ==> world.polls == old(world.polls) + 1
      ensures r.Err? ==> !commitOutstanding && !deliveredUnacked
      ensures old(Live()) && !producer.fatal && !producer.closed ==> (producer.txnOpen <==> commitOutstanding)
      ensures old(Live()) && r.Err? ==> (NeedsRebuild(r.error) <==> !Resumable())
      ensures old(Live()) && r.Err? && IsSticky(r.error) ==> BecameFatal(r.error)
    {
      hide World.Valid, World.Agrees, ProducerFollows, Run, Exec, Carries, MutationListener.Converts;
      OnlyTransactional();
      var records := Poll();
      if records.Err? {
        return Err(records.error);
      }
      if records.value == [] {
        return Ok(0);
      }
      if producer.transactional {
        var begun := BeginAndProduce(records.value);
        if begun.Err? {
          return Err(begun.error);
        }
      } else {
        var published := ProduceAndFlush(records.value);
        if published.Err? {
          return Err(published.error);
        }
      }
      pendingCount := |records.value|;
      return Ok(pendingCount);
    }

    /** Polls one reply and delivers it. */
    method Deliver() returns (r: Outcome<nat>)
      requires Valid() && !commitOutstanding && !deliveredUnacked
      modifies this`commitOutstanding, this`deliveredUnacked, this`checkpointed, this`pendingCount
      modifies listener`awaitingAck, listener`deliveryFailed
      modifies producer`accepted, producer`deliveryErrors, producer`fatal, producer`closed, producer`txnOpen
      modifies world`watermark, world`position, world`polls, world`served, world`time, world`disk
      modifies world`faults, world`commitErrors, world`ackErrors, world`aborts, world`acts, world`now
      modifies world`log, world`inflight, world`broken, world`buffer, world`requested, world`landed
      ensures Valid() && world.faults >= old(world.faults)
      ensures old(Live()) ==> world.polls == old(world.polls) + 1
      ensures old(Live()) && r.Ok? ==> Live() && Idle(world.now) && !listener.awaitingAck
      ensures old(Live()) && r.Ok? ==>
        if r.value == 0 then world.now == old(world.now) else old(world.position) < world.position <= world.watermark
      ensures r.Ok? ==> world.aborts == old(world.aborts)
      ensures r.Ok? ==> |producer.accepted| == |old(producer.accepted)| + r.value
      ensures old(Live()) && !producer.fatal && !producer.closed ==> (producer.txnOpen <==> commitOutstanding)
      ensures old(Live()) && r.Err? && commitOutstanding ==> Live()
      ensures old(Live()) && r.Err? ==> (NeedsRebuild(r.error) <==> !Resumable())
      ensures old(Live()) && r.Err? && IsSticky(r.error) ==> BecameFatal(r.error)
      ensures old(Live()) && world.served.Some? ==>
        (listener.deliveryFailed <==> !listener.Converts(world.served.value, world.time))
      ensures old(Resumable()) && world.faults == old(world.faults) ==>
        && world.served.Some?
        && (listener.Converts(world.served.value, world.time) ==>
              r.Ok? && Resumable() && (r.value == 0 <==> world.served.value.watermark < 0))
      ensures CommitsTried(old(world.commitErrors), r.Ok?, r.Err? && r.error.RuntimeError?)
      ensures world.aborts > old(world.aborts) ==>
        CommitEndedOtherwise(old(world.commitErrors)) || world.commitErrors == old(world.commitErrors)
      ensures AcksTried(old(world.ackErrors), r.Ok?)
    {
      hide Coupled, FlagsAgree, Idle, Live, MutationListener.Converts;
      hide CommitsTried, CommitEndedOtherwise, AcksTried;
      r := TakeUp();
      if r.Err? || r.value == 0 {
        NothingTried(r.Ok?, r.Err? && r.error.RuntimeError?);
        return;
      }
      r := FinishDelivery();
    }

    /**
     One step: polls a reply and delivers it, or finishes the delivery it finds. It returns the number of records
     published. From a live state it leaves a live one, or raises an error that calls for a rebuild; if it raises one
     that does not, the next step meets no sticky refusal.
     */
    method Step() returns (r: Outcome<nat>)
      requires Valid()
      modifies this`commitOutstanding, this`deliveredUnacked, this`checkpointed, this`pendingCount
      modifies listener`awaitingAck, listener`deliveryFailed
      modifies producer`accepted, producer`deliveryErrors, producer`fatal, producer`closed, producer`txnOpen
      modifies world`watermark, world`position, world`polls, world`served, world`time, world`disk
      modifies world`faults, world`commitErrors, world`ackErrors, world`aborts, world`acts, world`now
      modifies world`log, world`inflight, world`broken, world`buffer, world`requested, world`landed
      ensures Valid()
      ensures old(Live()) ==>
        world.polls == old(world.polls) + if old(commitOutstanding || deliveredUnacked) then 0 else 1
      ensures r.Ok? && old(commitOutstanding || deliveredUnacked) ==> !commitOutstanding && !deliveredUnacked
      ensures old(commitOutstanding || deliveredUnacked) ==>
        && world.polls == old(world.polls) && world.position == old(world.position)
        && world.inflight == old(world.inflight) && world.buffer == old(world.buffer)
      ensures old(Live()) && r.Ok? ==> Live() && Idle(world.now) && !listener.awaitingAck
      ensures old(Live()) && r.Ok? && old(commitOutstanding || deliveredUnacked) ==>
        r.value == |old(world.now.lst.value.reply)| && world.watermark >= world.position
      ensures old(Live()) && r.Ok? && old(!commitOutstanding && !deliveredUnacked) ==>
        if r.value == 0 then world.now == old(world.now)
        else old(world.position) < world.position <= world.watermark
      ensures old(Live()) && !producer.fatal && !producer.closed ==> (producer.txnOpen <==> commitOutstanding)
      ensures old(Live()) && r.Err? && commitOutstanding ==> Live()
      ensures old(Live()) && r.Err? ==> (NeedsRebuild(r.error) <==> !Resumable())
      ensures world.faults >= old(world.faults)
      ensures old(Live() && !commitOutstanding && !deliveredUnacked) && world.served.Some? ==>
        (listener.deliveryFailed <==> !listener.Converts(world.served.value, world.time))
      ensures old(Resumable()) && world.faults == old(world.faults) ==>
        if old(commitOutstanding || deliveredUnacked) then
          r.Ok? && Resumable()
        else
          && world.served.Some?
          && (listener.Converts(world.served.value, world.time) ==>
                r.Ok? && Resumable() && (r.value == 0 <==> world.served.value.watermark < 0))
      ensures r.Ok? ==> world.aborts == old(world.aborts)
      ensures r.Ok? ==>
        var taken := if old(commitOutstanding || deliveredUnacked) then 0 else r.value;
        |producer.accepted| == |old(producer.accepted)| + taken
      ensures CommitsTried(old(world.commitErrors), r.Ok?, r.Err? && r.error.RuntimeError?)
      ensures world.aborts > old(world.aborts) ==>
        CommitEndedOtherwise(old(world.commitErrors))
        || (world.commitErrors == old(world.commitErrors) && old(!commitOutstanding))
      ensures AcksTried(old(world.ackErrors), r.Ok?)
      ensures old(Live()) && r.Err? && IsSticky(r.error) ==> BecameFatal(r.error)
    {
      hide Coupled, FlagsAgree, Idle, MutationListener.Converts;
      hide CommitsTried, CommitEndedOtherwise, AcksTried;
      if commitOutstanding || deliveredUnacked {
        r := FinishDelivery();
      } else {
        r := Deliver();
      }
    }
  }
}
