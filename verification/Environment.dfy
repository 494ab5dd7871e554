/**
 What the bridge calls: FoundationDB, librdkafka and the file system, each as far as its promises go. Outcomes are
 chosen arbitrarily within those promises; a call that raises may have taken effect or not, except that a consume that
 raises has not advanced the position.

 The world also keeps the history of the run: the actions taken and the state of the system they lead to. A component
 calls the world; the pipeline then records what happened as an action, which must be enabled.
 */
module Environment {
  import opened Prelude
  import opened Errors
  import opened Stream
  import opened Protocol
  import opened RunTheorems
  import opened Deserializer
  import Serializer

  /** What the binding returns for one consume. */
  datatype NativeReply = NativeReply(groups: seq<CommitGroup>, watermark: int)

  function MutationEvents(ms: seq<Mutation>): (r: seq<Event>)
    ensures |r| == |ms|
  {
    seq(|ms|, i requires 0 <= i < |ms| =>
      Mut(ms[i].versionIndex.fdbVersion, ms[i].versionIndex.sequenceNo,
          Serializer.Native(ms[i].code, ms[i].param1, ms[i].param2)))
  }

  function BodyEvents(b: Body): seq<Event> {
    match b
    case Single(m) => MutationEvents([m])
    case Batch(ms) => MutationEvents(ms)
    case VersionEnd(v, total, _) => [End(v, total)]
  }

  /** A stored record, as what a consumer reads from its bytes. */
  function ConsumerReads(payload: bytes): Rec {
    match DeserializeRecord(payload)
    case Ok(r) => BodyEvents(r.body)
    case Err(_) => []
  }

  /** How far a new cursor has got to the disk, by completed steps of the save. */
  datatype SaveStage = Untouched | Partial | Written | Synced | Renamed | Durable

  /** The disk `d` after a save of `c` that got as far as `stage`. */
  function SavedDisk(d: Disk, c: Cursor, stage: SaveStage): Disk {
    match stage
    case Untouched => d
    case Partial => d.(tmp := Some(Torn), tmpSynced := false)
    case Written => d.(tmp := Some(Whole(c)), tmpSynced := false)
    case Synced => d.(tmp := Some(Whole(c)), tmpSynced := true)
    case Renamed => Disk(None, false, Some(Whole(c)), d.survivors + {Some(Whole(c))})
    case Durable => Disk(None, false, Some(Whole(c)), {Some(Whole(c))})
  }

  class World {
    const cfg: Config

    // FoundationDB: the retention watermark of the stream, and the position of the open native consumer.
    var watermark: int
    var position: int

    // Kafka: the topic, and the queue or transaction of the open native producer.
    ghost var log: seq<Rec>
    var inflight: seq<Rec>
    var broken: bool
    var buffer: seq<Rec>
    var requested: bool
    var landed: bool

    var disk: Disk

    // What the calls have brought, as far as promises speak of it.
    /** How many calls have raised, reported an error, or run out of time. */
    ghost var faults: nat
    /** How often a reply has been asked for, what the last call brought, and the last time read. */
    ghost var polls: nat
    ghost var served: Option<NativeReply>
    ghost var time: int
    /** The last version the cluster was found at. */
    ghost var clusterVersion: int
    /** The errors that commits and acknowledgements have raised, and how often a transaction was aborted. */
    ghost var commitErrors: seq<Exc>
    ghost var ackErrors: seq<Exc>
    ghost var aborts: nat

    ghost const start: Sys
    ghost var acts: seq<Action>
    ghost var now: Sys
    /** The kinds of producers that have been opened: transactional or not. */
    ghost var kinds: set<bool>

    /** The history is a run, and `now` is where it has led. */
    ghost predicate Valid()
      reads this`acts, this`now, this`kinds
    {
      Run(cfg, start, acts) && Exec(cfg, start, acts) == Some(now) && OpenedAs(acts, kinds)
    }

    /** What survives a crash is as the history says. */
    ghost predicate Agrees()
      reads this`now, this`watermark, this`log, this`disk
    {
      now.acked == watermark && now.log == log && now.disk == disk
    }

    ghost predicate Stopped()
      reads this`now
    {
      now.lst.None? && now.prd.None? && Idle(now)
    }

    /** Before the first start, with whatever else may be at the path of the cursor file. */
    constructor (cfg: Config, path: Option<Content>)
      requires path.Some? ==> path.value.Torn? || path.value.cursor.streamName != cfg.streamName
      ensures Valid() && Agrees() && Stopped() && this.cfg == cfg && acts == [] && kinds == {}
    {
      this.cfg := cfg;
      watermark, position, log := -1, -1, [];
      faults, polls, served, time, clusterVersion := 0, 0, None, 0, 0;
      commitErrors, ackErrors, aborts, kinds := [], [], 0, {};
      inflight, broken, buffer, requested, landed := [], false, [], false, false;
      disk := Disk(None, false, path, {path});
      start := Sys(-1, [], Disk(None, false, path, {path}), None, None, false, false, false);
      acts := [];
      now := Sys(-1, [], Disk(None, false, path, {path}), None, None, false, false, false);
    }

    /** Records one action, other than opening a producer. */
    ghost method Do(a: Action)
      requires Valid() && Enabled(cfg, now, a) && !a.ConsumeLost? && !a.OpenProducer?
      modifies this`acts, this`now
      ensures Valid() && now == Apply(cfg, old(now), a) && acts == old(acts) + [a]
    {
      hide Apply, Enabled, Exec, Start, AllFaithful, OpenedAs;
      ExecStep(cfg, start, acts, a);
      FaithfulMore(acts, a);
      OpenedMore(acts, a, kinds, kinds);
      now := Apply(cfg, now, a);
      acts := acts + [a];
    }

    /** Records that a producer has been opened. */
    ghost method DoOpenProducer(transactional: bool)
      requires Valid() && Enabled(cfg, now, OpenProducer(transactional))
      modifies this`acts, this`now, this`kinds
      ensures Valid() && now == Apply(cfg, old(now), OpenProducer(transactional))
      ensures acts == old(acts) + [OpenProducer(transactional)] && kinds == old(kinds) + {transactional}
    {
      hide Apply, Enabled, Exec, Start, AllFaithful, OpenedAs;
      var a := OpenProducer(transactional);
      ExecStep(cfg, start, acts, a);
      FaithfulMore(acts, a);
      OpenedMore(acts, a, kinds, kinds + {transactional});
      now := Apply(cfg, now, a);
      acts := acts + [a];
      kinds := kinds + {transactional};
    }

    /** The process dies, or the power fails: what is volatile is gone. */
    method Crash()
      requires Valid() && Agrees()
      modifies this
      ensures Valid() && Agrees() && Stopped() && kinds == old(kinds)
      ensures |acts| == |old(acts)| + 1 && old(acts) <= acts
      ensures acts[|old(acts)|].ProcessCrash? || acts[|old(acts)|].PowerLoss?
    {
      hide Run, Exec, Enabled, Apply, CanLeave, Leaves;
      var power: bool := *;
      ghost var sent: int, lands: bool := *, *;
      if sent < 0 || (now.prd.Some? && !CanLeave(now.prd.value, sent, lands)) {
        sent, lands := 0, false;
      }
      if power && disk.survivors != {} {
        var survivor :| survivor in disk.survivors;
        MayLosePower(cfg, now, sent, lands, survivor);
        Do(PowerLoss(sent, lands, survivor));
        disk := Disk(None, false, survivor, {survivor});
      } else {
        MayCrash(cfg, now, sent, lands);
        Do(ProcessCrash(sent, lands));
      }
      log := now.log;
    }

    // ---------------------------------------------------------------- Kafka

    method AnyKafkaException() returns (e: Exc)
      ensures e.KafkaException?
    {
      var known, fatal, retriable, requiresAbort: bool := *, *, *, *;
      e := KafkaException(if known then Some(KafkaError(fatal, retriable, requiresAbort)) else None);
    }

    /** Whether a native producer can be created, or flushed at all. */
    method KafkaAvailable() returns (r: Outcome<()>)
      modifies this`faults
      ensures r.Err? ==> r.error.KafkaException?
      ensures faults == old(faults) + if r.Err? then 1 else 0
    {
      var raises: bool := *;
      var e := AnyKafkaException();
      r := if raises then Err(e) else Ok(());
      faults := faults + if raises then 1 else 0;
    }

    /** A new native producer. */
    method KafkaOpen()
      modifies this`inflight, this`broken, this`buffer, this`requested, this`landed
      ensures inflight == [] && !broken && buffer == [] && !requested && !landed
    {
      inflight, broken, buffer, requested, landed := [], false, [], false, false;
    }

    /** Hands one message to the local queue; `fatal` says that a fatal error was reported meanwhile. */
    method KafkaProduce(payload: bytes, inTransaction: bool)
      returns (r: Outcome<()>, fatal: bool, ghost accepted: bool)
      modifies this`inflight, this`buffer, this`faults
      ensures faults == old(faults) + if r.Err? || fatal then 1 else 0
      ensures r.Ok? ==> accepted
      ensures r.Err? ==> r.error.KafkaException? || r.error.BufferError?
      ensures inflight == old(inflight) + if accepted && !inTransaction then [ConsumerReads(payload)] else []
      ensures buffer == old(buffer) + if accepted && inTransaction then [ConsumerReads(payload)] else []
    {
      var taken, raises, full: bool := *, *, *;
      fatal := *;
      accepted := taken;
      if taken && inTransaction {
        buffer := buffer + [ConsumerReads(payload)];
      } else if taken {
        inflight := inflight + [ConsumerReads(payload)];
      }
      if taken && !raises {
        r := Ok(());
      } else if full {
        r := Err(BufferError);
      } else {
        var e := AnyKafkaException();
        r := Err(e);
      }
      faults := faults + if r.Err? || fatal then 1 else 0;
    }

    /**
     Reports on the queue, as `poll` and `flush` do: `sent` messages have been delivered, in order; then `dropped`
     have been given up, each with an error. After that, no later one is delivered. A flush that leaves messages has
     run out of time.
     */
    method KafkaServe(flush: bool)
      returns (errors: seq<KafkaError>, fatal: bool, ghost sent: nat, ghost dropped: nat)
      modifies this`log, this`inflight, this`broken, this`faults
      ensures faults == old(faults) + if errors != [] || fatal || (flush && inflight != []) then 1 else 0
      ensures sent + dropped <= |old(inflight)| && (old(broken) ==> sent == 0) && (dropped > 0 ==> errors != [])
      ensures log == old(log) + old(inflight)[..sent] && inflight == old(inflight)[sent + dropped..]
      ensures broken == (old(broken) || dropped > 0)
    {
      errors, fatal := *, *;
      var delivered: nat, lost: nat := *, *;
      if broken || delivered + lost > |inflight| {
        delivered := 0;
      }
      if lost > |inflight| - delivered || errors == [] {
        lost := 0;
      }
      sent, dropped := delivered, lost;
      log := log + inflight[..sent];
      inflight, broken := inflight[delivered + lost..], broken || lost > 0;
      faults := faults + if errors != [] || fatal || (flush && inflight != []) then 1 else 0;
    }

    /** Gives up what is left of the queue. Part of it, in order, may have reached the broker all the same. */
    method KafkaPurge() returns (ghost sent: nat)
      modifies this`log, this`inflight
      ensures sent <= |old(inflight)| && (broken ==> sent == 0)
      ensures log == old(log) + old(inflight)[..sent] && inflight == []
    {
      ghost var part: int := *;
      sent := if broken || !(0 <= part <= |inflight|) then 0 else part;
      log := log + inflight[..sent];
      inflight := [];
    }

    method KafkaInitTransactions() returns (r: Outcome<()>, fatal: bool)
      modifies this`faults
      ensures r.Err? ==> r.error.KafkaException?
      ensures faults == old(faults) + if r.Err? || fatal then 1 else 0
    {
      var raises: bool := *;
      fatal := *;
      var e := AnyKafkaException();
      r := if raises then Err(e) else Ok(());
      faults := faults + if raises || fatal then 1 else 0;
    }

    method KafkaBegin() returns (r: Outcome<()>, fatal: bool)
      modifies this`buffer, this`requested, this`landed, this`faults
      ensures r.Err? ==> r.error.KafkaException?
      ensures faults == old(faults) + if r.Err? || fatal then 1 else 0
      ensures buffer == [] && !requested && !landed
    {
      var raises: bool := *;
      fatal := *;
      buffer, requested, landed := [], false, false;
      var e := AnyKafkaException();
      r := if raises then Err(e) else Ok(());
      faults := faults + if raises || fatal then 1 else 0;
    }

    /** Asks for the open transaction to be committed: whole, if at all. Success means that it has been. */
    method KafkaCommit() returns (r: Outcome<()>, fatal: bool, ghost lands: bool)
      modifies this`log, this`requested, this`landed, this`faults, this`commitErrors
      ensures r.Err? ==> r.error.KafkaException?
      ensures faults == old(faults) + if r.Err? || fatal then 1 else 0
      ensures commitErrors == if r.Err? then old(commitErrors) + [r.error] else old(commitErrors)
      ensures requested && landed == (old(landed) || lands) && (r.Ok? ==> landed)
      ensures log == old(log) + if lands && !old(landed) then buffer else []
    {
      var raises, takes: bool := *, *;
      fatal := *;
      takes := takes || (!raises && !landed);
      lands := takes;
      log := log + if lands && !landed then buffer else [];
      requested, landed := true, landed || takes;
      var e := AnyKafkaException();
      r := if raises then Err(e) else Ok(());
      faults := faults + if raises || fatal then 1 else 0;
      commitErrors := if raises then commitErrors + [e] else commitErrors;
    }

    /** A transaction whose commit was asked for may still be committed instead. */
    method KafkaAbort() returns (r: Outcome<()>, fatal: bool, ghost lands: bool)
      modifies this`log, this`landed, this`faults, this`aborts
      ensures r.Err? ==> r.error.KafkaException?
      ensures faults == old(faults) + if r.Err? || fatal then 1 else 0
      ensures aborts == old(aborts) + 1
      ensures landed == (old(landed) || lands) && (lands ==> requested)
      ensures log == old(log) + if lands && !old(landed) then buffer else []
    {
      var raises, takes: bool := *, *;
      fatal := *;
      takes := takes && requested;
      lands := takes;
      log := log + if lands && !landed then buffer else [];
      landed := landed || takes;
      var e := AnyKafkaException();
      r := if raises then Err(e) else Ok(());
      faults := faults + if raises || fatal then 1 else 0;
      aborts := aborts + 1;
    }

    // --------------------------------------------------------- FoundationDB

    method AnyFdbError() returns (e: Exc)
      ensures FromFdb(e)
    {
      var retryable, terminal, native: bool := *, *, *;
      e := if retryable then CdcRetryable else if terminal then CdcTerminal else if native then FdbError
           else CdcError(Native);
    }

    /** Opening the database and registering the stream. */
    method OpenStream() returns (r: Outcome<()>)
      modifies this`faults
      ensures r.Err? ==> FromFdb(r.error)
      ensures faults == old(faults) + if r.Err? then 1 else 0
    {
      var raises: bool := *;
      var e := AnyFdbError();
      r := if raises then Err(e) else Ok(());
      faults := faults + if raises then 1 else 0;
    }

    /** A new consumer starts at the retention watermark. */
    method CreateConsumer() returns (r: Outcome<()>)
      modifies this`position, this`faults
      ensures r.Err? ==> FromFdb(r.error)
      ensures faults == old(faults) + if r.Err? then 1 else 0
      ensures r.Ok? ==> position == watermark
    {
      r := OpenStream();
      position := watermark;
    }

    method ResumeConsumer(cursor: Cursor) returns (r: Outcome<()>)
      modifies this`position, this`faults
      ensures r.Err? ==> FromFdb(r.error)
      ensures faults == old(faults) + if r.Err? then 1 else 0
      ensures r.Ok? ==> position == cursor.version
    {
      r := OpenStream();
      position := cursor.version;
    }

    method ReadVersion() returns (r: Outcome<int>)
      modifies this`faults, this`clusterVersion
      ensures r.Err? ==> FromFdb(r.error)
      ensures r.Ok? ==> clusterVersion == r.value
      ensures faults == old(faults) + if r.Err? then 1 else 0
    {
      var raises: bool, version: int := *, *;
      var e := AnyFdbError();
      r := if raises then Err(e) else Ok(version);
      faults := faults + if raises then 1 else 0;
      clusterVersion := if raises then clusterVersion else version;
    }

    /**
     The next reply: the groups after the position and up to a later watermark. A consumer behind the retention
     watermark gets nothing. A reply may also bring nothing at all.
     */
    method Consume() returns (r: Outcome<NativeReply>)
      modifies this`position, this`polls, this`served, this`faults
      ensures polls == old(polls) + 1 && served == if r.Ok? then Some(r.value) else None
      ensures faults == old(faults) + if r.Err? then 1 else 0
      ensures r.Err? ==> FromFdb(r.error) && position == old(position)
      ensures r.Ok? && r.value.watermark < 0 ==> r.value == NativeReply([], -1) && position == old(position)
      ensures r.Ok? && r.value.watermark >= 0 ==>
        && watermark <= old(position) < position == r.value.watermark
        && Cut(cfg.stream, old(position)) <= Cut(cfg.stream, position)
        && r.value.groups == cfg.stream[Cut(cfg.stream, old(position))..Cut(cfg.stream, position)]
    {
      var raises, idle: bool, further: nat := *, *, *;
      polls := polls + 1;
      if raises || position < watermark {
        served, faults := None, faults + 1;
        var e := AnyFdbError();
        return Err(e);
      }
      if idle {
        served := Some(NativeReply([], -1));
        return Ok(NativeReply([], -1));
      }
      var w := Max(position + 1, 0) + further;
      CutMonotone(cfg.stream, position, w);
      r := Ok(NativeReply(cfg.stream[Cut(cfg.stream, position)..Cut(cfg.stream, w)], w));
      position := w;
      served := Some(r.value);
    }

    /** Acknowledges the position. Acknowledgements are cumulative: the watermark never goes back. */
    method Acknowledge() returns (r: Outcome<()>, ghost lands: bool)
      modifies this`watermark, this`faults, this`ackErrors
      ensures faults == old(faults) + if r.Err? then 1 else 0
      ensures ackErrors == if r.Err? then old(ackErrors) + [r.error] else old(ackErrors)
      ensures r.Err? ==> FromFdb(r.error)
      ensures watermark == if lands then Max(old(watermark), position) else old(watermark)
      ensures r.Ok? ==> lands
    {
      var raises, takes: bool := *, *;
      takes := takes || !raises;
      lands := takes;
      watermark := if takes then Max(watermark, position) else watermark;
      var e := AnyFdbError();
      r := if raises then Err(e) else Ok(());
      faults := faults + if raises then 1 else 0;
      ackErrors := if raises then ackErrors + [e] else ackErrors;
    }

    method GetPosition() returns (r: Outcome<int>)
      modifies this`faults
      ensures r == Ok(position) || (r.Err? && FromFdb(r.error))
      ensures faults == old(faults) + if r.Err? then 1 else 0
    {
      var raises: bool := *;
      var e := AnyFdbError();
      r := if raises then Err(e) else Ok(position);
      faults := faults + if raises then 1 else 0;
    }

    method CloseConsumer() returns (r: Outcome<()>)
      ensures r.Err? ==> FromFdb(r.error)
    {
      var raises: bool := *;
      var e := AnyFdbError();
      r := if raises then Err(e) else Ok(());
    }

    /** The time of day in nanoseconds. */
    method Clock() returns (ns: int)
      modifies this`time
      ensures time == ns
    {
      ns := *;
      time := ns;
    }

    // ------------------------------------------------------------- the disk

    /** Writes the temporary file. */
    method WriteFile(c: Cursor) returns (ok: bool)
      modifies this`disk, this`faults
      ensures faults == old(faults) + if ok then 0 else 1
      ensures disk == SavedDisk(old(disk), c, Untouched) || disk == SavedDisk(old(disk), c, Partial)
              || disk == SavedDisk(old(disk), c, Written)
      ensures ok ==> disk == SavedDisk(old(disk), c, Written)
    {
      var opens, cut: bool := *, *;
      ok := *;
      disk := SavedDisk(disk, c,
                        if ok then Written else if !opens then Untouched else if cut then Partial else Written);
      faults := faults + if ok then 0 else 1;
    }

    method SyncFile() returns (ok: bool)
      modifies this`disk, this`faults
      ensures faults == old(faults) + if ok then 0 else 1
      ensures disk == old(disk) || disk == old(disk).(tmpSynced := true)
      ensures ok ==> disk == old(disk).(tmpSynced := true)
    {
      var takes: bool := *;
      ok := *;
      disk := if ok || takes then disk.(tmpSynced := true) else disk;
      faults := faults + if ok then 0 else 1;
    }

    /** Renames the temporary file into place. What was not synced may come back cut off in the middle. */
    method Replace() returns (ok: bool)
      modifies this`disk, this`faults
      ensures faults == old(faults) + if ok then 0 else 1
      ensures disk == old(disk) || disk == Renaming(old(disk))
      ensures ok ==> disk == Renaming(old(disk))
    {
      var takes: bool := *;
      ok := *;
      disk := if ok || takes then Renaming(disk) else disk;
      faults := faults + if ok then 0 else 1;
    }

    /** Opens and fsyncs the directory, where the file system can; that it cannot is no fault. */
    method SyncDirectory() returns (ok: bool, unsupported: bool)
      modifies this`disk, this`faults
      ensures faults == old(faults) + if ok || unsupported then 0 else 1
      ensures disk == old(disk) || disk == old(disk).(survivors := {old(disk).path})
      ensures ok ==> disk == old(disk).(survivors := {old(disk).path})
      ensures ok ==> cfg.dirSync
      ensures unsupported ==> !ok && !cfg.dirSync
      ensures !cfg.dirSync ==> disk == old(disk)
    {
      var takes: bool := *;
      ok, unsupported := *, *;
      ok, unsupported := ok && cfg.dirSync, unsupported && !cfg.dirSync;
      disk := if cfg.dirSync && (ok || takes) then disk.(survivors := {disk.path}) else disk;
      faults := faults + if ok || unsupported then 0 else 1;
    }

    method ReadFile() returns (r: Outcome<Option<Content>>)
      modifies this`faults
      ensures r == Ok(disk.path) || r == Err(FileError)
      ensures faults == old(faults) + if r.Err? then 1 else 0
    {
      var raises: bool := *;
      r := if raises then Err(FileError) else Ok(disk.path);
      faults := faults + if raises then 1 else 0;
    }
  }

  function Renaming(d: Disk): Disk {
    Disk(None, false, d.tmp, d.survivors + {d.tmp} + if d.tmpSynced then {} else {Some(Torn)})
  }

  lemma MayCrash(cfg: Config, s: Sys, sent: nat, lands: bool)
    requires s.prd.Some? ==> CanLeave(s.prd.value, sent, lands) || (sent == 0 && !lands)
    ensures var a := ProcessCrash(sent, lands);
            Enabled(cfg, s, a) && Apply(cfg, s, a) == Crashed(s, sent, lands)
  {
    hide Leaves;
  }

  lemma MayLosePower(cfg: Config, s: Sys, sent: nat, lands: bool, survivor: Option<Content>)
    requires s.prd.Some? ==> CanLeave(s.prd.value, sent, lands) || (sent == 0 && !lands)
    requires survivor in s.disk.survivors
    ensures var a := PowerLoss(sent, lands, survivor);
            && Enabled(cfg, s, a)
            && Apply(cfg, s, a) == Crashed(s, sent, lands).(disk := Disk(None, false, survivor, {survivor}))
  {
    hide Leaves;
  }

  /** Every producer opened in the history was of one of the kinds. */
  predicate OpenedAs(acts: seq<Action>, kinds: set<bool>) {
    forall i :: 0 <= i < |acts| && acts[i].OpenProducer? ==> acts[i].transactional in kinds
  }

  lemma OpenedMore(acts: seq<Action>, a: Action, fewer: set<bool>, kinds: set<bool>)
    requires OpenedAs(acts, fewer) && fewer <= kinds
    requires a.OpenProducer? ==> a.transactional in kinds
    ensures OpenedAs(acts + [a], kinds)
  {
  }

  lemma FaithfulMore(acts: seq<Action>, a: Action)
    requires AllFaithful(acts) && !a.ConsumeLost?
    ensures AllFaithful(acts + [a])
  {
  }
}
