/** The Kafka producer wrapper: transactions, and errors that stick. */
module Producers {
  import opened Prelude
  import opened Errors
  import opened Protocol
  import opened Environment
  import Messages

  /** What one call did: whether it reached librdkafka, and what was then accepted and reported. */
  datatype Effect = Effect(reached: bool, accepted: bool, sent: nat, dropped: nat)

  const NO_EFFECT := Effect(false, false, 0, 0)

  /** What has been accepted since `base` is in the log, or follows it. */
  predicate Accounted(base: seq<Rec>, accepted: seq<Rec>, log: seq<Rec>, inflight: seq<Rec>) {
    log + inflight == base + accepted
  }

  lemma AccountedFirst(base: seq<Rec>)
    ensures Accounted(base, [], base, [])
  {
  }

  lemma AccountedMore(base: seq<Rec>, accepted: seq<Rec>, log: seq<Rec>, inflight: seq<Rec>, rec: Rec)
    requires Accounted(base, accepted, log, inflight)
    ensures Accounted(base, accepted + [rec], log, inflight + [rec])
  {
    calc {
      log + (inflight + [rec]);
      (log + inflight) + [rec];
      (base + accepted) + [rec];
      base + (accepted + [rec]);
    }
  }

  lemma AccountedSent(base: seq<Rec>, accepted: seq<Rec>, log: seq<Rec>, inflight: seq<Rec>, sent: nat)
    requires Accounted(base, accepted, log, inflight) && sent <= |inflight|
    ensures Accounted(base, accepted, log + inflight[..sent], inflight[sent..])
  {
    calc {
      (log + inflight[..sent]) + inflight[sent..];
      log + (inflight[..sent] + inflight[sent..]);
      { assert inflight[..sent] + inflight[sent..] == inflight; }
      log + inflight;
    }
  }

  lemma AccountedAll(base: seq<Rec>, accepted: seq<Rec>, log: seq<Rec>)
    requires Accounted(base, accepted, log, [])
    ensures log == base + accepted
  {
    assert log + [] == log;
  }

  class MutationProducer {
    const world: World
    const transactional: bool
    var deliveryErrors: seq<KafkaError>
    var txnInitialized: bool
    var txnOpen: bool
    var closed: bool
    var fatal: bool

    /** The log when the producer was made, and every record it has accepted since. */
    ghost const base: seq<Rec>
    ghost var accepted: seq<Rec>

    /** Outside transactions and without errors, what was accepted is delivered or still on its way, in order. */
    ghost predicate Valid()
      reads this, world`log, world`inflight, world`broken
    {
      && (txnOpen ==> transactional && txnInitialized)
      && (transactional && !closed ==> world.inflight == [] && !world.broken)
      && (!transactional && !closed && deliveryErrors == [] ==>
            !world.broken && Accounted(base, accepted, world.log, world.inflight))
    }

    constructor (world: World, transactional: bool)
      modifies world`inflight, world`broken, world`buffer, world`requested, world`landed
      ensures Valid() && this.world == world && this.transactional == transactional
      ensures deliveryErrors == [] && !txnInitialized && !txnOpen && !closed && !fatal
      ensures accepted == [] && base == world.log
      ensures world.inflight == [] && !world.broken
    {
      this.world := world;
      this.transactional := transactional;
      deliveryErrors, txnInitialized, txnOpen, closed, fatal := [], false, false, false, false;
      base, accepted := world.log, [];
      new;
      world.KafkaOpen();
      AccountedFirst(base);
    }

    /** Why the transaction methods refuse to go on, in the order they check. */
    function TxnRefusal(initializing: bool): Option<Exc>
      reads this
    {
      if closed then Some(RuntimeError(ProducerClosed))
      else if fatal then Some(RuntimeError(ProducerFatal))
      else if !transactional then Some(RuntimeError(NotTransactional))
      else if !initializing && !txnInitialized then Some(RuntimeError(NotInitialized))
      else None
    }

    function ProduceRefusal(): Option<Exc>
      reads this
    {
      if closed then Some(RuntimeError(ProducerClosed))
      else if fatal then Some(RuntimeError(ProducerFatal))
      else if transactional && !txnOpen then Some(RuntimeError(NotOpen))
      else if !transactional && deliveryErrors != [] then Some(KafkaException(Some(deliveryErrors[0])))
      else None
    }

    method InitTransactions() returns (r: Outcome<()>)
      requires Valid()
      modifies this`txnInitialized, this`fatal, world`faults
      ensures Valid() && world.faults >= old(world.faults)
      ensures old(TxnRefusal(true)).None? && !old(txnInitialized) && world.faults == old(world.faults) ==>
        r.Ok? && !fatal
      ensures old(TxnRefusal(true)).Some? ==> r == Err(old(TxnRefusal(true)).value)
      ensures old(TxnRefusal(true)).None? && old(txnInitialized) ==> r == Err(RuntimeError(AlreadyInitialized))
      ensures old(TxnRefusal(true)).None? && !old(txnInitialized) ==> r.Ok? || r.error.KafkaException?
      ensures r.Ok? ==> transactional && txnInitialized && !old(txnInitialized) && !closed
      ensures r.Err? ==> txnInitialized == old(txnInitialized)
      ensures old(fatal) ==> fatal
      ensures r.Err? && IsFatalKafka(r.error) ==> fatal
    {
      var refusal := TxnRefusal(true);
      if refusal.Some? {
        return Err(refusal.value);
      }
      if txnInitialized {
        return Err(RuntimeError(AlreadyInitialized));
      }
      var reported: bool;
      r, reported := world.KafkaInitTransactions();
      fatal := fatal || reported;
      if r.Err? {
        if IsFatalKafka(r.error) {
          fatal := true;
        }
        return;
      }
      txnInitialized := true;
    }

    method BeginTransaction() returns (r: Outcome<()>)
      requires Valid()
      modifies this`txnOpen, this`fatal, world`buffer, world`requested, world`landed, world`faults
      ensures Valid() && world.faults >= old(world.faults)
      ensures old(TxnRefusal(false)).None? && !old(txnOpen) && world.faults == old(world.faults) ==> r.Ok? && !fatal
      ensures old(TxnRefusal(false)).Some? ==> r == Err(old(TxnRefusal(false)).value)
      ensures old(TxnRefusal(false)).None? && old(txnOpen) ==> r == Err(RuntimeError(AlreadyOpen))
      ensures old(TxnRefusal(false)).None? && !old(txnOpen) ==> r.Ok? || r.error.KafkaException?
      ensures r.Ok? ==> txnOpen && world.buffer == [] && !world.requested && !world.landed
      ensures r.Err? ==> txnOpen == old(txnOpen)
      ensures old(txnOpen) ==> world.buffer == old(world.buffer) && world.requested == old(world.requested)
                               && world.landed == old(world.landed)
      ensures old(fatal) ==> fatal
    {
      var refusal := TxnRefusal(false);
      if refusal.Some? {
        return Err(refusal.value);
      }
      if txnOpen {
        return Err(RuntimeError(AlreadyOpen));
      }
      var reported: bool;
      r, reported := world.KafkaBegin();
      fatal := fatal || reported;
      if r.Err? {
        if IsFatalKafka(r.error) {
          fatal := true;
        }
        return;
      }
      txnOpen := true;
    }

    /** Success means that the transaction has landed whole; it is then closed, and its delivery errors forgotten. */
    method CommitTransaction() returns (r: Outcome<()>, ghost reached: bool, ghost lands: bool)
      requires Valid()
      modifies this`txnOpen, this`fatal, this`deliveryErrors
      modifies world`log, world`requested, world`landed, world`faults, world`commitErrors
      ensures Valid() && world.faults >= old(world.faults)
      ensures reached && world.faults == old(world.faults) ==> r.Ok? && !fatal
      ensures world.commitErrors == old(world.commitErrors) + if reached && r.Err? then [r.error] else []
      ensures old(TxnRefusal(false)).Some? ==> r == Err(old(TxnRefusal(false)).value)
      ensures old(TxnRefusal(false)).None? && !old(txnOpen) ==> r == Err(RuntimeError(NotOpen))
      ensures reached <==> old(TxnRefusal(false)).None? && old(txnOpen)
      ensures !reached ==> unchanged(this) && world.log == old(world.log) && world.requested == old(world.requested)
                           && world.landed == old(world.landed)
      ensures reached ==> && (r.Err? ==> r.error.KafkaException?)
                          && world.requested && world.landed == (old(world.landed) || lands)
                          && world.log == old(world.log) + if lands && !old(world.landed) then world.buffer else []
      ensures r.Ok? ==> !txnOpen && deliveryErrors == [] && world.landed
      ensures r.Err? ==> txnOpen == old(txnOpen) && deliveryErrors == old(deliveryErrors)
      ensures old(fatal) ==> fatal
      ensures reached && r.Err? && IsFatalKafka(r.error) ==> fatal
    {
      reached, lands := false, false;
      var refusal := TxnRefusal(false);
      if refusal.Some? {
        return Err(refusal.value), reached, lands;
      }
      if !txnOpen {
        return Err(RuntimeError(NotOpen)), reached, lands;
      }
      reached := true;
      var reported: bool;
      r, reported, lands := world.KafkaCommit();
      fatal := fatal || reported;
      if r.Err? {
        if IsFatalKafka(r.error) {
          fatal := true;
        }
        return;
      }
      txnOpen, deliveryErrors := false, [];
    }

    /** A failed abort leaves the producer fatal. */
    method AbortTransaction() returns (r: Outcome<()>, ghost reached: bool, ghost lands: bool)
      requires Valid()
      modifies this`txnOpen, this`fatal, this`deliveryErrors
      modifies world`log, world`landed, world`faults, world`aborts
      ensures Valid() && world.faults >= old(world.faults)
      ensures reached && world.faults == old(world.faults) ==> r.Ok? && !fatal
      ensures world.aborts == old(world.aborts) + if reached then 1 else 0
      ensures old(TxnRefusal(false)).Some? ==> r == Err(old(TxnRefusal(false)).value)
      ensures old(TxnRefusal(false)).None? && !old(txnOpen) ==> r == Err(RuntimeError(NotOpen))
      ensures reached <==> old(TxnRefusal(false)).None? && old(txnOpen)
      ensures !reached ==> unchanged(this) && world.log == old(world.log) && world.landed == old(world.landed)
      ensures reached ==> && (r.Err? ==> r.error.KafkaException?)
                          && world.landed == (old(world.landed) || lands) && (lands ==> world.requested)
                          && world.log == old(world.log) + if lands && !old(world.landed) then world.buffer else []
      ensures r.Ok? ==> !txnOpen && deliveryErrors == []
      ensures r.Err? ==> txnOpen == old(txnOpen) && deliveryErrors == old(deliveryErrors)
      ensures old(fatal) || (reached && r.Err?) ==> fatal
    {
      reached, lands := false, false;
      var refusal := TxnRefusal(false);
      if refusal.Some? {
        return Err(refusal.value), reached, lands;
      }
      if !txnOpen {
        return Err(RuntimeError(NotOpen)), reached, lands;
      }
      reached := true;
      var reported: bool;
      r, reported, lands := world.KafkaAbort();
      fatal := fatal || reported;
      if r.Err? {
        fatal := true;
        return;
      }
      txnOpen, deliveryErrors := false, [];
    }

    /** Runs the callbacks of the reports that have come in, and notes their errors. */
    method Serve(flush: bool) returns (ghost sent: nat, ghost dropped: nat)
      requires Valid() && !closed
      modifies this`deliveryErrors, this`fatal, world`log, world`inflight, world`broken, world`faults
      ensures Valid() && world.faults >= old(world.faults)
      ensures world.faults == old(world.faults) ==>
        deliveryErrors == old(deliveryErrors) && fatal == old(fatal) && (flush ==> world.inflight == [])
      ensures sent + dropped <= |old(world.inflight)| && (old(world.broken) ==> sent == 0)
      ensures dropped > 0 ==> deliveryErrors != old(deliveryErrors)
      ensures world.log == old(world.log) + old(world.inflight)[..sent]
      ensures world.inflight == old(world.inflight)[sent + dropped..]
      ensures world.broken == (old(world.broken) || dropped > 0)
      ensures old(deliveryErrors) <= deliveryErrors && (old(fatal) ==> fatal)
    {
      hide Accounted;
      ghost var log, queue := world.log, world.inflight;
      var errors: seq<KafkaError>, reported: bool;
      errors, reported, sent, dropped := world.KafkaServe(flush);
      fatal, deliveryErrors := fatal || reported, deliveryErrors + errors;
      if !transactional && deliveryErrors == [] {
        AccountedSent(base, accepted, log, queue, sent);
      }
    }

    /** Hands the bytes to the local queue, or to the open transaction. */
    method Enqueue(payload: bytes) returns (r: Outcome<()>, ghost taken: bool)
      requires Valid() && !closed
      modifies this`accepted, this`fatal, world`inflight, world`buffer, world`faults
      ensures Valid() && world.faults >= old(world.faults)
      ensures world.faults == old(world.faults) ==> r.Ok? && fatal == old(fatal)
      ensures r.Ok? ==> taken
      ensures r.Err? ==> r.error.KafkaException? || r.error.BufferError?
      ensures accepted == old(accepted) + if taken then [ConsumerReads(payload)] else []
      ensures world.inflight == old(world.inflight) + if taken && !transactional then [ConsumerReads(payload)] else []
      ensures world.buffer == old(world.buffer) + if taken && transactional then [ConsumerReads(payload)] else []
      ensures old(fatal) ==> fatal
    {
      hide Accounted, ConsumerReads;
      ghost var log, queue, before, rec := world.log, world.inflight, accepted, ConsumerReads(payload);
      var reported: bool;
      r, reported, taken := world.KafkaProduce(payload, transactional);
      fatal := fatal || reported;
      accepted := accepted + if taken then [rec] else [];
      if transactional || !taken {
        assert queue + [] == queue && before + [] == before;
      } else if deliveryErrors == [] {
        AccountedMore(base, before, log, queue, rec);
      }
    }

    /** Enqueues the record, then serves the reports that have come in. */
    method Produce(record: Messages.RecordMsg) returns (r: Outcome<()>, ghost e: Effect)
      requires Valid()
      modifies this`accepted, this`deliveryErrors, this`fatal
      modifies world`log, world`inflight, world`broken, world`buffer, world`faults
      ensures Valid() && world.faults >= old(world.faults)
      ensures e.reached && world.faults == old(world.faults) ==>
        r.Ok? && !fatal && deliveryErrors == old(deliveryErrors)
      ensures e.reached <==> old(ProduceRefusal()).None?
      ensures !e.reached ==> && r == Err(old(ProduceRefusal()).value) && unchanged(this)
                             && world.log == old(world.log) && world.inflight == old(world.inflight)
                             && world.broken == old(world.broken) && world.buffer == old(world.buffer)
      ensures e.reached ==>
        var payload := if e.accepted then [ConsumerReads(Messages.EncodeRecord(record))] else [];
        var queue := old(world.inflight) + if transactional then [] else payload;
        && (r.Ok? ==> e.accepted)
        && (r.Err? ==> r.error.KafkaException? || r.error.BufferError?)
        && accepted == old(accepted) + payload
        && world.buffer == old(world.buffer) + (if transactional then payload else [])
        && e.sent + e.dropped <= |queue| && (old(world.broken) ==> e.sent == 0)
        && (e.dropped > 0 ==> deliveryErrors != old(deliveryErrors))
        && world.log == old(world.log) + queue[..e.sent] && world.inflight == queue[e.sent + e.dropped..]
        && world.broken == (old(world.broken) || e.dropped > 0)
      ensures old(deliveryErrors) <= deliveryErrors && (old(fatal) ==> fatal)
    {
      hide Valid, ConsumerReads;
      e := NO_EFFECT;
      var refusal := ProduceRefusal();
      if refusal.Some? {
        return Err(refusal.value), e;
      }
      ghost var taken, sent, dropped;
      r, taken := Enqueue(Messages.EncodeRecord(record));
      e := Effect(true, taken, 0, 0);
      if r.Ok? {
        sent, dropped := Serve(false);
        e := Effect(true, taken, sent, dropped);
      }
    }

    /** Waits for the queue to drain; the first delivery error is raised again by every later call. */
    method Flush() returns (r: Outcome<nat>, ghost e: Effect)
      requires Valid()
      modifies this`deliveryErrors, this`fatal, world`log, world`inflight, world`broken, world`faults
      ensures Valid() && world.faults >= old(world.faults)
      ensures e.reached && old(deliveryErrors) == [] && world.faults == old(world.faults) ==>
        r == Ok(0) && !fatal
      ensures e.reached <==> !old(closed) && !old(fatal)
      ensures old(closed) ==> r == Err(RuntimeError(ProducerClosed))
      ensures !old(closed) && old(fatal) ==> r == Err(RuntimeError(ProducerFatal))
      ensures !e.reached ==> && unchanged(this) && world.log == old(world.log)
                             && world.inflight == old(world.inflight) && world.broken == old(world.broken)
      ensures e.reached ==>
        && e.sent + e.dropped <= |old(world.inflight)| && (old(world.broken) ==> e.sent == 0)
        && (e.dropped > 0 ==> deliveryErrors != old(deliveryErrors))
        && world.log == old(world.log) + old(world.inflight)[..e.sent]
        && world.inflight == old(world.inflight)[e.sent + e.dropped..]
        && world.broken == (old(world.broken) || e.dropped > 0)
        && r == if deliveryErrors != [] then Err(KafkaException(Some(deliveryErrors[0]))) else Ok(|world.inflight|)
      ensures old(deliveryErrors) <= deliveryErrors && (old(fatal) ==> fatal)
    {
      hide Valid, ConsumerReads;
      e := NO_EFFECT;
      if closed {
        return Err(RuntimeError(ProducerClosed)), e;
      }
      if fatal {
        return Err(RuntimeError(ProducerFatal)), e;
      }
      ghost var sent, dropped := Serve(true);
      var remaining := |world.inflight|;
      e := Effect(true, false, sent, dropped);
      if deliveryErrors != [] {
        return Err(KafkaException(Some(deliveryErrors[0]))), e;
      }
      return Ok(remaining), e;
    }

    /** Outside transactions, a normal return means that every record ever accepted has been delivered, in order. */
    method FlushOrRaise() returns (r: Outcome<()>, ghost e: Effect)
      requires Valid()
      modifies this`deliveryErrors, this`fatal, world`log, world`inflight, world`broken, world`faults
      ensures Valid() && world.faults >= old(world.faults)
      ensures e.reached && old(deliveryErrors) == [] && world.faults == old(world.faults) ==> r.Ok? && !fatal
      ensures r.Ok? && !transactional ==> world.log == base + accepted
      ensures r.Ok? ==> !closed && deliveryErrors == [] && world.inflight == []
      ensures r.Err? ==> r.error.RuntimeError? || r.error.KafkaException? || r.error.TimeoutError?
      ensures r.Err? && r.error.RuntimeError? ==>
        r.error == RuntimeError(if old(closed) then ProducerClosed else ProducerFatal) && (old(closed) || old(fatal))
      ensures old(deliveryErrors) != [] ==> r.Err?
      ensures e.reached <==> !old(closed) && !old(fatal)
      ensures !e.reached ==> && r.Err? && unchanged(this) && world.log == old(world.log)
                             && world.inflight == old(world.inflight) && world.broken == old(world.broken)
      ensures e.reached ==>
        && e.sent + e.dropped <= |old(world.inflight)| && (old(world.broken) ==> e.sent == 0)
        && (e.dropped > 0 ==> deliveryErrors != old(deliveryErrors))
        && world.log == old(world.log) + old(world.inflight)[..e.sent]
        && world.inflight == old(world.inflight)[e.sent + e.dropped..]
        && world.broken == (old(world.broken) || e.dropped > 0)
      ensures old(deliveryErrors) <= deliveryErrors && (old(fatal) ==> fatal)
    {
      var remaining;
      remaining, e := Flush();
      if remaining.Err? {
        return Err(remaining.error), e;
      }
      if remaining.value > 0 {
        return Err(TimeoutError), e;
      }
      if !transactional {
        AccountedAll(base, accepted, world.log);
      }
      return Ok(()), e;
    }

    method MarkFatal()
      modifies this`fatal
      ensures fatal
    {
      fatal := true;
    }

    /** Flushes, then purges what is left: part of it, in order, may have been delivered all the same. */
    method Drain() returns (ghost sent: nat)
      requires Valid() && !closed
      modifies this`closed, this`deliveryErrors, this`fatal
      modifies world`log, world`inflight, world`broken, world`faults
      ensures Valid() && closed
      ensures world.faults >= old(world.faults)
      ensures sent <= |old(world.inflight)| && (old(world.broken) ==> sent == 0)
      ensures world.log == old(world.log) + old(world.inflight)[..sent]
      ensures world.faults == old(world.faults) ==> sent == |old(world.inflight)|
      ensures old(fatal) ==> fatal
    {
      hide Accounted;
      ghost var log, queue := world.log, world.inflight;
      ghost var lost: nat;
      sent, lost := 0, 0;
      var available := world.KafkaAvailable();
      if available.Ok? {
        sent, lost := Serve(true);
      } else {
        assert log + queue[..0] == log;
      }
      closed := true;
      if world.inflight != [] || available.Err? {
        ghost var more := world.KafkaPurge();
        TwoParts(log, queue, sent, lost, more);
        sent := sent + more;
      }
    }

    /**
     Aborts an open transaction, flushes, purges what is left. A closed producer stays closed. What it leaves behind is
     a part of its queue, in order, or the transaction if it was to be committed.
     */
    method Close() returns (ghost sent: nat, ghost lands: bool)
      requires Valid()
      modifies this`closed, this`txnOpen, this`deliveryErrors, this`fatal
      modifies world`log, world`inflight, world`broken, world`landed, world`faults, world`aborts
      ensures Valid() && closed
      ensures world.faults >= old(world.faults)
      ensures world.aborts == old(world.aborts) + if old(!closed && txnOpen) then 1 else 0
      ensures old(closed) ==> unchanged(this) && world.log == old(world.log) && world.inflight == old(world.inflight)
                              && world.broken == old(world.broken) && world.landed == old(world.landed)
      ensures !old(closed) ==>
        && sent <= |old(world.inflight)| && (old(world.broken) ==> sent == 0)
        && (lands ==> old(txnOpen) && world.requested)
        && world.log == old(world.log) + old(world.inflight)[..sent]
                        + if lands && !old(world.landed) then world.buffer else []
      ensures !old(closed) && world.faults == old(world.faults) ==> sent == |old(world.inflight)|
      ensures old(fatal) ==> fatal
    {
      hide Accounted;
      sent, lands := 0, false;
      if closed {
        return;
      }
      ghost var log, whole := world.log, world.buffer;
      if transactional && txnOpen {
        var aborted, reported;
        aborted, reported, lands := world.KafkaAbort();
        fatal := fatal || reported;
        if aborted.Ok? {
          txnOpen := false;
        }
        assert world.inflight[..0] == [];
        assert log + [] + whole == log + whole;
      }
      ghost var middle := world.log;
      sent := Drain();
      assert middle + [] == middle;
    }
  }

  lemma TwoParts(log: seq<Rec>, queue: seq<Rec>, sent: nat, lost: nat, more: nat)
    requires sent + lost <= |queue| && more <= |queue| - sent - lost && (lost > 0 ==> more == 0)
    ensures log + queue[..sent] + queue[sent + lost..][..more] == log + queue[..sent + more]
  {
    if more == 0 {
      assert queue[sent + lost..][..0] == [];
    } else {
      assert queue[..sent] + queue[sent..][..more] == queue[..sent + more];
    }
  }
}
