/** The daemon around the pipeline: it builds and rebuilds it from the saved cursor, runs it and stops it. */
module Bridges {
  import opened Prelude
  import opened Errors
  import opened Protocol
  import opened Atomicity
  import opened RunTheorems
  import opened Environment
  import opened Producers
  import opened Listeners
  import opened Moves
  import opened Pipelines
  import CursorFile

  const COMMIT_RETRIES := 3
  const ACK_RETRIES := 3

  /** The errors that end the run; everything else is retried. */
  predicate EndsRun(e: Exc) {
    e.CdcTerminal? || IsFatalKafka(e) || e.ValueError?
  }

  /** The iterations go on until one ends the run, which is then what it returns, or shutdown is requested. */
  ghost predicate RunsOn(before: seq<Option<Exc>>, after: seq<Option<Exc>>, shutdown: nat, r: Outcome<()>) {
    && before <= after
    && var later := after[|before|..];
    && (r.Ok? ==> |later| == shutdown && forall k :: 0 <= k < |later| ==> later[k].Some? ==> !EndsRun(later[k].value))
    && (r.Err? ==>
          && 0 < |later| <= shutdown && later[|later| - 1] == Some(r.error) && EndsRun(r.error)
          && forall k :: 0 <= k < |later| - 1 ==> later[k].Some? ==> !EndsRun(later[k].value))
  }

  lemma RunsOnNothing(before: seq<Option<Exc>>)
    ensures RunsOn(before, before, 0, Ok(()))
  {
  }

  lemma RunsOnMore(before: seq<Option<Exc>>, after: seq<Option<Exc>>, i: nat, shutdown: nat, exc: Option<Exc>)
    requires RunsOn(before, after, i, Ok(())) && i < shutdown
    ensures if exc.Some? && EndsRun(exc.value) then RunsOn(before, after + [exc], shutdown, Err(exc.value))
            else RunsOn(before, after + [exc], i + 1, Ok(()))
  {
    assert (after + [exc])[|before|..] == after[|before|..] + [exc];
  }

  class Bridge {
    const world: World
    const transactional: bool
    const maxRecordBytes: int
    var listener: MutationListener?
    var producer: MutationProducer?
    var pipeline: BridgePipeline?

    /** What each iteration has ended with: nothing, or an error. */
    ghost var outcomes: seq<Option<Exc>>

    ghost function Repr(): set<object>
      reads `listener, `producer, `pipeline
    {
      (if listener == null then {} else {listener})
      + (if producer == null then {} else {producer})
      + (if pipeline == null then {} else {pipeline})
    }

    /** Each handle is as the history says, whether or not there is a pipeline. */
    ghost predicate Parts()
      reads `listener, `producer, world, listener, producer
    {
      && world.Valid() && world.Agrees()
      && (listener == null ==> world.now.lst.None?)
      && (listener != null ==>
            && listener.world == world && listener.Valid()
            && (world.now.lst.Some? <==> listener.consumer))
      && (producer == null ==> world.now.prd.None?)
      && (producer != null ==>
            ProducerFollows(world, producer, world.now.prd) && producer.transactional == transactional)
    }

    ghost predicate Valid()
      reads `listener, `producer, `pipeline, world, listener, producer, pipeline
    {
      && (pipeline == null ==> listener == null && producer == null && Parts() && Idle(world.now))
      && (pipeline != null ==>
            && listener != null && producer != null
            && pipeline.world == world && pipeline.listener == listener && pipeline.producer == producer
            && producer.transactional == transactional
            && pipeline.commitRetries == COMMIT_RETRIES && pipeline.ackRetries == ACK_RETRIES
            && listener.maxRecordBytes == maxRecordBytes && listener.streamName == world.cfg.streamName
            && pipeline.Valid())
    }

    constructor (world: World, transactional: bool, maxRecordBytes: int)
      requires world.Valid() && world.Agrees() && world.Stopped()
      ensures Valid() && pipeline == null && this.world == world
      ensures this.transactional == transactional && this.maxRecordBytes == maxRecordBytes
    {
      this.world, this.transactional, this.maxRecordBytes := world, transactional, maxRecordBytes;
      listener, producer, pipeline, outcomes := null, null, null, [];
    }

    /** Drops the pipeline, closes and drops the listener and the producer. */
    method Discard(stopping: bool) returns (closed: Outcome<()>)
      requires Parts() && (stopping || !world.now.commitOutstanding)
      modifies this`pipeline, this`listener, this`producer, listener, producer
      modifies world`log, world`inflight, world`broken, world`landed, world`faults, world`aborts, world`acts, world`now
      ensures Valid() && pipeline == null && world.faults >= old(world.faults)
    {
      hide RunTheorems.Run, Exec, Enabled, Apply, ProducerFollows;
      pipeline := null;
      MayDropPipeline(world.cfg, world.now, stopping);
      world.Do(DropPipeline(stopping));
      closed := DiscardListener();
      if producer != null {
        ShutProducer(world, producer);
        ForgetProducer();
      }
    }

    method DiscardListener() returns (closed: Outcome<()>)
      requires Parts() && Idle(world.now)
      modifies this`listener, listener, world`acts, world`now
      ensures Parts() && listener == null && Idle(world.now)
    {
      hide RunTheorems.Run, Exec, Enabled, Apply, ProducerFollows;
      closed := Ok(());
      if listener != null {
        closed := listener.Close();
        if world.now.lst.Some? {
          MayCloseListener(world.cfg, world.now);
          world.Do(CloseListener);
        }
        listener := null;
      }
    }

    method ForgetProducer()
      requires Parts() && Idle(world.now) && listener == null && producer != null && producer.closed
      modifies this`producer, world`acts, world`now
      ensures Parts() && producer == null && Idle(world.now)
    {
      hide RunTheorems.Run, Exec, Enabled, Apply, QueueAgrees, MutationProducer.Valid;
      MayDropProducer(world.cfg, world.now);
      world.Do(DropProducer);
      producer := null;
    }

    // -------------------------------------------------------------- building

    /** The cursor file is torn, of another stream, or ahead of the cluster. */
    ghost predicate BadCursor()
      reads world`disk, world`clusterVersion
    {
      && world.cfg.persist && world.disk.path.Some?
      && match world.disk.path.value
         case Torn => true
         case Whole(c) => c.streamName != world.cfg.streamName || world.clusterVersion < c.version
    }

    /** Resumes the listener from the cursor file, or starts it at the retention watermark. */
    method OpenListener() returns (r: Outcome<()>)
      requires Valid() && pipeline == null
      modifies this`listener, world`position, world`watermark, world`acts, world`now
      modifies world`faults, world`clusterVersion, world`ackErrors
      ensures Parts() && Idle(world.now) && world.now.prd.None? && (listener != null ==> fresh(listener))
      ensures world.faults >= old(world.faults)
      ensures r.Err? && world.faults == old(world.faults) ==> BadCursor()
      ensures r.Ok? ==> && listener != null && ListenerFollows(world, listener, world.now.lst)
                        && !listener.awaitingAck && !listener.deliveryFailed
                        && listener.maxRecordBytes == maxRecordBytes
      ensures r.Err? ==>
        FromFdb(r.error) || r.error == CdcError(InvalidCursor) || r.error.FileError? || r.error.ValueError?
    {
      hide RunTheorems.Run, Exec, Enabled, Apply;
      var cursor := CursorFile.Load(world, world.cfg.persist, world.cfg.streamName);
      if cursor.Err? {
        return Err(cursor.error);
      }
      listener := new MutationListener(world, world.cfg.streamName, cursor.value, maxRecordBytes);
      ghost var opening;
      r, opening := listener.Start();
      match opening {
        case NotOpened =>
        case Fresh =>
          MayOpenFresh(world.cfg, world.now);
          world.Do(OpenFresh);
        case Resumed(restored) =>
          MayOpenResumed(world.cfg, world.now, cursor.value.value, restored, r.Ok?);
          world.Do(OpenResumed(restored, r.Ok?));
      }
    }

    /** A new producer, transactional if the bridge is. */
    method MakeProducer() returns (r: Outcome<()>)
      requires Parts() && Idle(world.now) && producer == null && listener != null
      requires ListenerFollows(world, listener, world.now.lst) && !listener.awaitingAck
      modifies this`producer
      modifies world`inflight, world`broken, world`buffer, world`requested, world`landed, world`faults
      modifies world`acts, world`now, world`kinds
      ensures Parts() && Idle(world.now) && world.now.lst == old(world.now.lst)
      ensures world.kinds <= old(world.kinds) + {transactional}
      ensures world.faults >= old(world.faults) && (r.Err? ==> world.faults > old(world.faults) && producer == null)
      ensures r.Err? ==> r.error.KafkaException?
      ensures r.Ok? ==>
        && producer != null && fresh(producer) && !producer.closed && !producer.txnOpen && !producer.txnInitialized
        && !producer.fatal && producer.deliveryErrors == []
    {
      hide RunTheorems.Run, Exec, Enabled, Apply, MutationProducer.Valid;
      r := world.KafkaAvailable();
      if r.Err? {
        return;
      }
      MayOpenProducer(world.cfg, world.now, transactional);
      producer := new MutationProducer(world, transactional);
      world.DoOpenProducer(transactional);
    }

    /** A new producer, initialized for transactions if it is to make any. */
    method OpenProducer() returns (r: Outcome<()>)
      requires Parts() && Idle(world.now) && producer == null && listener != null
      requires ListenerFollows(world, listener, world.now.lst) && !listener.awaitingAck
      modifies this`producer
      modifies world`inflight, world`broken, world`buffer, world`requested, world`landed, world`faults
      modifies world`acts, world`now, world`kinds
      ensures Parts() && Idle(world.now) && world.now.lst == old(world.now.lst)
      ensures world.kinds <= old(world.kinds) + {transactional}
      ensures world.faults >= old(world.faults)
      ensures world.faults == old(world.faults) ==> r.Ok? && producer != null && !producer.fatal
      ensures producer != null ==> fresh(producer)
      ensures r.Ok? ==>
        && producer != null && !producer.closed && !producer.txnOpen && producer.deliveryErrors == []
        && (producer.transactional ==> producer.txnInitialized)
      ensures r.Err? ==> r.error.KafkaException?
    {
      hide RunTheorems.Run, Exec, Enabled, Apply, MutationProducer.Valid, ListenerFollows, QueueAgrees;
      r := MakeProducer();
      if r.Err? || !producer.transactional {
        return;
      }
      ghost var p := world.now.prd.value;
      r := producer.InitTransactions();
      if producer.fatal {
        MayFatal(world.cfg, world.now);
        world.Do(Fatal);
        QueueSame(p, world.now.prd.value, world.inflight, world.broken);
      }
    }

    /** A pipeline that the next step finds live. */
    ghost predicate Running()
      reads `listener, `producer, `pipeline, world`now, listener, producer, pipeline
    {
      && pipeline != null && pipeline.world == world
      && listener == pipeline.listener && producer == pipeline.producer && pipeline.Live()
    }

    /** Builds everything anew, or fails with everything closed and unset. */
    method BuildPipeline() returns (r: Outcome<()>)
      requires Valid() && pipeline == null
      modifies this`pipeline, this`listener, this`producer, world
      ensures Valid() && fresh(Repr()) && world.polls == old(world.polls)
      ensures world.kinds <= old(world.kinds) + {transactional} && world.faults >= old(world.faults)
      ensures world.faults == old(world.faults) ==>
        if r.Ok? then pipeline != null && pipeline.Resumable() else BadCursor()
      ensures r.Ok? ==> Running() && !pipeline.commitOutstanding && !pipeline.deliveredUnacked
      ensures r.Err? ==> pipeline == null
    {
      hide RunTheorems.Run, Exec, World.Valid, World.Agrees, MutationListener.Valid, ProducerFollows;
      r := OpenListener();
      if r.Ok? {
        r := OpenProducer();
      }
      if r.Err? {
        var ignored := Discard(false);
        return;
      }
      pipeline := new BridgePipeline(world, listener, producer, COMMIT_RETRIES, ACK_RETRIES);
    }

    /** Starts anew from the saved cursor, unless a commit is outstanding: then the next step retries that. */
    method RebuildPipeline() returns (r: Outcome<()>)
      requires Valid()
      modifies this`pipeline, this`listener, this`producer, world, Repr()
      ensures Valid() && fresh(Repr() - old(Repr())) && world.polls == old(world.polls)
      ensures world.kinds <= old(world.kinds) + {transactional} && world.faults >= old(world.faults)
      ensures !old(pipeline != null && pipeline.commitOutstanding) && world.faults == old(world.faults) ==>
        if r.Ok? then pipeline != null && pipeline.Resumable() else BadCursor()
      ensures old(pipeline != null && pipeline.commitOutstanding) ==>
        && r.Ok? && unchanged(this) && unchanged(world)
        && unchanged(pipeline) && unchanged(listener) && unchanged(producer)
      ensures !old(pipeline != null && pipeline.commitOutstanding) ==>
        if r.Ok? then Running() && !pipeline.commitOutstanding && !pipeline.deliveredUnacked else pipeline == null
    {
      hide RunTheorems.Run, Exec, ProducerFollows;
      if pipeline != null && pipeline.commitOutstanding {
        return Ok(());
      }
      var ignored := Discard(false);
      r := BuildPipeline();
    }

    method Start() returns (r: Outcome<()>)
      requires Valid()
      modifies this`pipeline, this`listener, this`producer, world
      ensures Valid()
      ensures world.kinds <= old(world.kinds) + {transactional} && world.faults >= old(world.faults)
      ensures old(pipeline) == null && world.faults == old(world.faults) ==>
        if r.Ok? then pipeline != null && pipeline.Resumable() else BadCursor() || world.cfg.streamName == []
      ensures old(pipeline) != null ==> r.Ok? && unchanged(this) && unchanged(world)
      ensures old(pipeline) == null ==> if r.Ok? then Running() && fresh(Repr()) else pipeline == null
      ensures old(pipeline) == null && world.cfg.streamName == [] ==>
        r == Err(ValueError) && unchanged(this) && unchanged(world)
    {
      if pipeline != null {
        return Ok(());
      }
      if world.cfg.streamName == [] {
        return Err(ValueError);
      }
      r := BuildPipeline();
    }

    function NeedsRebuild(exc: Exc): bool
      reads `pipeline, pipeline, if pipeline == null then {} else {pipeline.listener, pipeline.producer}
    {
      pipeline == null || pipeline.NeedsRebuild(exc)
    }

    /** Whether the next iteration finds something to step, or rebuilds first. */
    ghost predicate Ready(rebuildPending: bool)
      reads `listener, `producer, `pipeline, world`now, listener, producer, pipeline
    {
      pipeline == null || Running() || (rebuildPending && !pipeline.commitOutstanding)
    }

    /** Whether an iteration starts from a new pipeline. */
    predicate Rebuilds(rebuildPending: bool)
      reads `pipeline, pipeline
    {
      pipeline == null || (rebuildPending && !pipeline.commitOutstanding)
    }

    /** Rebuilds what is to be rebuilt, then steps; nothing is polled while a delivery is left to be finished. */
    method Attempt(rebuildPending: bool) returns (exc: Option<Exc>)
      requires Valid() && Ready(rebuildPending)
      modifies this`pipeline, this`listener, this`producer, world, Repr()
      ensures Valid() && fresh(Repr() - old(Repr()))
      ensures world.kinds <= old(world.kinds) + {transactional} && world.faults >= old(world.faults)
      ensures exc.None? ==> Running()
      ensures exc.Some? ==>
        && Ready(NeedsRebuild(exc.value))
        && (NeedsRebuild(exc.value) <==> pipeline == null || !pipeline.Resumable())
      ensures exc.Some? && !EndsRun(exc.value) && IsSticky(exc.value) ==> NeedsRebuild(exc.value)
      ensures !old(Rebuilds(rebuildPending)) ==>
        pipeline == old(pipeline) && listener == old(listener) && producer == old(producer)
      ensures !old(Rebuilds(rebuildPending)) && old(pipeline.commitOutstanding || pipeline.deliveredUnacked) ==>
        && world.polls == old(world.polls) && world.position == old(world.position)
        && world.inflight == old(world.inflight) && world.buffer == old(world.buffer)
      ensures old(Rebuilds(rebuildPending) || pipeline.Resumable()) && world.faults == old(world.faults) ==>
        Recovered(exc)
      ensures exc.None? && old(pipeline == null || (!pipeline.commitOutstanding && !pipeline.deliveredUnacked)) ==>
        world.polls == old(world.polls) + 1
    {
      hide RunTheorems.Run, Exec, ListenerFollows, ProducerFollows, BridgePipeline.Coupled;
      exc := None;
      if rebuildPending || pipeline == null {
        var rebuilt := RebuildPipeline();
        if rebuilt.Err? {
          return Some(rebuilt.error);
        }
      }
      var published := pipeline.Step();
      if published.Err? {
        exc := Some(published.error);
      }
    }

    /** Where an iteration without a fault ends: ready for the next, unless the file or the reply is to blame. */
    ghost predicate Recovered(exc: Option<Exc>)
      reads `listener, `pipeline, world, listener, pipeline
      reads if pipeline == null then {} else {pipeline.world, pipeline.listener, pipeline.producer}
    {
      if pipeline == null then exc.Some? && BadCursor()
      else if exc.None? then pipeline.Resumable()
      else
        && listener != null && listener.deliveryFailed
        && world.served.Some? && !listener.Converts(world.served.value, world.time)
    }

    /**
     One iteration: rebuilds if that is asked for, then steps. The step starts from a live pipeline, so it meets a
     sticky refusal only if the producer has just become fatal. After an error, a rebuild is asked for or the next
     step meets none at all; one that was skipped for an outstanding commit is asked for again when the commit dies.
     */
    method Iterate(rebuildPending: bool) returns (exc: Option<Exc>, pending: bool)
      requires Valid() && Ready(rebuildPending)
      modifies this`pipeline, this`listener, this`producer, this`outcomes, world, Repr()
      ensures Valid() && fresh(Repr() - old(Repr())) && Ready(pending)
      ensures world.kinds <= old(world.kinds) + {transactional} && world.faults >= old(world.faults)
      ensures outcomes == old(outcomes) + [exc]
      ensures exc.None? ==> Running() && !pending
      ensures exc.Some? ==> (pending <==> pipeline == null || !pipeline.Resumable())
      ensures exc.Some? && !EndsRun(exc.value) && IsSticky(exc.value) ==> pending
      ensures !old(Rebuilds(rebuildPending)) ==>
        pipeline == old(pipeline) && listener == old(listener) && producer == old(producer)
      ensures !old(Rebuilds(rebuildPending)) && old(pipeline.commitOutstanding || pipeline.deliveredUnacked) ==>
        && world.polls == old(world.polls) && world.position == old(world.position)
        && world.inflight == old(world.inflight) && world.buffer == old(world.buffer)
      ensures old(Rebuilds(rebuildPending) || pipeline.Resumable()) && world.faults == old(world.faults) ==>
        Recovered(exc)
      ensures exc.None? && old(pipeline == null || (!pipeline.commitOutstanding && !pipeline.deliveredUnacked)) ==>
        world.polls == old(world.polls) + 1
    {
      hide Valid, Running, Recovered, BridgePipeline.Live, BridgePipeline.Resumable, NeedsRebuild;
      exc := Attempt(rebuildPending);
      pending := exc.Some? && NeedsRebuild(exc.value);
      outcomes := outcomes + [exc];
    }

    /**
     Runs until shutdown is requested, which happens before iteration `shutdown`, or an error ends the run. Whatever
     has happened then, everything below the retention watermark is in the Kafka log, and without a gap.
     */
    method Run(shutdown: nat) returns (r: Outcome<()>)
      requires Valid() && (pipeline != null ==> Running())
      modifies this`pipeline, this`listener, this`producer, this`outcomes, world, Repr()
      ensures Valid() && fresh(Repr() - old(Repr()))
      ensures world.kinds <= old(world.kinds) + {transactional} && world.faults >= old(world.faults)
      ensures old(pipeline) == null ==> r == Err(RuntimeError(NotStarted)) && unchanged(this) && unchanged(world)
      ensures old(pipeline) != null ==> RunsOn(old(outcomes), outcomes, shutdown, r)
      ensures Delivered(world.cfg, world.now, world.watermark) && GapFree(world.cfg, world.now)
    {
      hide Valid, Running, Delivered, GapFree, EndsRun, RunsOn;
      if pipeline == null {
        EverythingDelivered();
        return Err(RuntimeError(NotStarted));
      }
      RunsOnNothing(outcomes);
      var rebuildPending := false;
      var i := 0;
      while i < shutdown
        invariant 0 <= i <= shutdown
        invariant RunsOn(old(outcomes), outcomes, i, Ok(()))
        invariant Valid() && fresh(Repr() - old(Repr())) && Ready(rebuildPending)
        invariant world.kinds <= old(world.kinds) + {transactional} && world.faults >= old(world.faults)
      {
        ghost var after := outcomes;
        var exc;
        exc, rebuildPending := Iterate(rebuildPending);
        RunsOnMore(old(outcomes), after, i, shutdown, exc);
        if exc.Some? && EndsRun(exc.value) {
          EverythingDelivered();
          return Err(exc.value);
        }
        i := i + 1;
      }
      EverythingDelivered();
      return Ok(());
    }

    lemma EverythingDelivered()
      requires Valid()
      ensures Delivered(world.cfg, world.now, world.watermark) && GapFree(world.cfg, world.now)
    {
      AtLeastOnce(world.cfg, world.start, world.acts);
      GapFreeOrder(world.cfg, world.start, world.acts);
    }

    /** Finishes an outstanding commit if it can, then closes the producer and the listener. */
    method Stop(timeout: nat) returns (r: Outcome<()>)
      requires Valid()
      modifies this`pipeline, this`listener, this`producer, world, Repr()
      ensures Valid() && pipeline == null && world.Stopped() && world.kinds == old(world.kinds)
      ensures world.faults >= old(world.faults)
      ensures old(pipeline != null && pipeline.commitOutstanding && pipeline.Resumable()) && timeout > 0
              && world.faults == old(world.faults) ==>
        world.watermark >= old(world.position) && world.aborts == old(world.aborts)
    {
      hide RunTheorems.Run, Exec, World.Valid, Enabled, Apply, ProducerFollows;
      var failed := FinishOutstandingCommit(timeout);
      pipeline := null;
      MayDropPipeline(world.cfg, world.now, true);
      world.Do(DropPipeline(true));
      if producer != null {
        ShutProducer(world, producer);
      }
      r := DiscardListener();
      if producer != null {
        ForgetProducer();
      }
    }

    /** Steps while the commit is outstanding, until the deadline or the first failure. */
    method FinishOutstandingCommit(timeout: nat) returns (failed: bool)
      requires Valid()
      modifies world, Repr()
      ensures Valid() && world.kinds == old(world.kinds)
      ensures !old(pipeline != null && pipeline.commitOutstanding) ==>
        !failed && unchanged(world) && unchanged(Repr())
      ensures old(pipeline != null && pipeline.commitOutstanding) ==> world.polls == old(world.polls)
      ensures timeout > 0 && !failed ==> pipeline == null || !pipeline.commitOutstanding
      ensures world.faults >= old(world.faults)
      ensures old(pipeline != null && pipeline.commitOutstanding && pipeline.Resumable()) && timeout > 0
              && world.faults == old(world.faults) ==>
        && !failed && pipeline.Live() && Idle(world.now)
        && world.watermark >= old(world.position) && world.aborts == old(world.aborts)
    {
      hide RunTheorems.Run, Exec, ListenerFollows, ProducerFollows, BridgePipeline.Coupled;
      failed := false;
      if pipeline == null {
        return;
      }
      var left := timeout;
      while pipeline.commitOutstanding && left > 0 && !failed
        invariant Valid() && pipeline != null && world.kinds == old(world.kinds)
        invariant old(pipeline != null && pipeline.commitOutstanding) ==> world.polls == old(world.polls)
        invariant !old(pipeline != null && pipeline.commitOutstanding) ==>
          !failed && unchanged(world) && unchanged(Repr())
        invariant left < timeout && !failed ==> !pipeline.commitOutstanding
        invariant world.faults >= old(world.faults)
        invariant old(pipeline != null && pipeline.commitOutstanding && pipeline.Resumable())
                  && world.faults == old(world.faults) ==>
          if left == timeout then !failed && unchanged(world) && unchanged(Repr())
          else !failed && pipeline.Live() && Idle(world.now)
               && world.watermark >= old(world.position) && world.aborts == old(world.aborts)
        decreases left
      {
        var r := pipeline.Step();
        failed := r.Err?;
        left := left - 1;
      }
    }
  }

  /**
   The process is started, runs and dies, again and again. Whenever it dies, and whether or not the power goes with it,
   everything below the retention watermark is in the Kafka log, and without a gap. If the bridge is transactional, and
   so was every one before it, the log is a concatenation of whole replies.
   */
  method Lives(world: World, transactional: bool, maxRecordBytes: int, lives: nat) returns (ghost replies: seq<Reply>)
    requires world.Valid() && world.Agrees() && world.Stopped()
    modifies world
    ensures world.Valid() && world.Agrees() && world.Stopped()
    ensures Delivered(world.cfg, world.now, world.watermark) && GapFree(world.cfg, world.now)
    ensures world.kinds <= old(world.kinds) + {transactional}
    ensures transactional && old(world.kinds) <= {true} ==>
      Records(replies) == world.log && forall i :: 0 <= i < |replies| ==> IsReply(world.cfg.stream, replies[i])
  {
    hide Delivered, GapFree, OpenedAs, Records, IsReply;
    for i := 0 to lives
      invariant world.Valid() && world.Agrees() && world.Stopped()
      invariant world.kinds <= old(world.kinds) + {transactional}
    {
      var bridge := new Bridge(world, transactional, maxRecordBytes);
      var started := bridge.Start();
      if started.Ok? {
        var shutdown: nat := *;
        var ended := bridge.Run(shutdown);
      }
      world.Crash();
    }
    AtLeastOnce(world.cfg, world.start, world.acts);
    GapFreeOrder(world.cfg, world.start, world.acts);
    replies := [];
    if transactional && world.kinds <= {true} {
      OnlyTransactional(world.acts, world.kinds);
      replies := LogIsWholeReplies(world.cfg, world.start, world.acts);
    }
  }

  lemma OnlyTransactional(acts: seq<Action>, kinds: set<bool>)
    requires OpenedAs(acts, kinds) && kinds <= {true}
    ensures AllTransactional(acts)
  {
  }
}
