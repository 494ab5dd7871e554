/**
 When an action may be taken, and what it then does, one lemma for each that the bridge takes: its methods use these
 in place of the whole transition relation. Also how the queue of the native producer follows the protocol's.
 */
module Moves {
  import opened Prelude
  import opened Protocol
  import opened Stream
  import opened Environment
  import opened Producers
  import opened RunTheorems

  // ------------------------------------------------------------ the two queues

  /** The queue of the native producer is the part of the reply that the protocol says is on its way. */
  predicate QueueAgrees(p: Prd, inflight: seq<Rec>, broken: bool) {
    && p.pending == |inflight| && p.broken == broken
    && (p.transactional ==> inflight == [] && !broken)
    && (!p.transactional && !broken ==>
          p.delivered + p.pending == |p.handed| && inflight == p.handed[p.delivered..])
  }

  lemma QueueSame(p: Prd, q: Prd, inflight: seq<Rec>, broken: bool)
    requires QueueAgrees(p, inflight, broken)
    requires q.transactional == p.transactional && q.handed == p.handed && q.delivered == p.delivered
    requires q.pending == p.pending && q.broken == p.broken
    ensures QueueAgrees(q, inflight, broken)
  {
  }

  /** A new reply starts with an empty queue. */
  lemma QueueEmpty(p: Prd, q: Prd, inflight: seq<Rec>, broken: bool)
    requires !p.closed ==> QueueAgrees(p, inflight, broken) && NothingInFlight(p)
    requires q.transactional == p.transactional && q.handed == [] && q.delivered == 0 && q.pending == 0
    requires q.broken == p.broken
    ensures !p.closed ==> QueueAgrees(q, inflight, broken)
  {
  }

  lemma AcceptAgrees(p: Prd, rec: Rec, inflight: seq<Rec>, broken: bool)
    requires QueueAgrees(p, inflight, broken)
    ensures QueueAgrees(Accept(p, rec), inflight + (if p.transactional then [] else [rec]), broken)
  {
    assert inflight + [] == inflight;
  }

  lemma PumpAgrees(p: Prd, inflight: seq<Rec>, broken: bool, sent: nat, dropped: nat, error: bool, fatal: bool)
    requires QueueAgrees(p, inflight, broken) && CanPump(p, sent, dropped, error)
    ensures Next(p, sent) == inflight[..sent]
    ensures QueueAgrees(Pumped(p, sent, dropped, error, fatal), inflight[sent + dropped..], broken || dropped > 0)
  {
    if p.transactional || broken {
      assert Next(p, 0) == [];
    }
  }

  function Offered(p: Prd, offered: Option<Rec>): Prd {
    if offered.Some? then Accept(p, offered.value) else p
  }

  function Queue(p: Prd, inflight: seq<Rec>, offered: Option<Rec>): seq<Rec> {
    if offered.Some? && !p.transactional then inflight + [offered.value] else inflight
  }

  /** The queue stays the one the protocol describes when a record is offered to it and its reports are served. */
  lemma ServeAgrees(p: Prd, offered: Option<Rec>, inflight: seq<Rec>, broken: bool, e: Effect, error: bool, fatal: bool)
    requires QueueAgrees(p, inflight, broken)
    requires var queue := Queue(p, inflight, offered);
             && e.sent + e.dropped <= |queue| && (broken ==> e.sent == 0) && (e.dropped > 0 ==> error)
    ensures var queue, q := Queue(p, inflight, offered), Offered(p, offered);
            && CanPump(q, e.sent, e.dropped, error)
            && Next(q, e.sent) == queue[..e.sent]
            && QueueAgrees(Pumped(q, e.sent, e.dropped, error, fatal), queue[e.sent + e.dropped..],
                           broken || e.dropped > 0)
  {
    hide Pumped, Next;
    var queue, q := Queue(p, inflight, offered), Offered(p, offered);
    if offered.Some? {
      AcceptAgrees(p, offered.value, inflight, broken);
      assert inflight + [] == inflight;
    }
    PumpAgrees(q, queue, broken, e.sent, e.dropped, error, fatal);
  }

  lemma MayProduce(cfg: Config, s: Sys, rec: Rec, e: Effect, error: bool, fatal: bool)
    requires s.prd.Some? && Usable(s.prd.value) && ListenerReady(s) && Idle(s)
    requires if s.prd.value.transactional then s.prd.value.txnOpen else !s.prd.value.failed
    requires |s.prd.value.handed| < |s.lst.value.reply| && rec == s.lst.value.reply[|s.prd.value.handed|]
    requires CanPump(Offered(s.prd.value, if e.accepted then Some(rec) else None), e.sent, e.dropped, error)
    ensures var a := Action.Produce(rec, e.accepted, e.sent, e.dropped, error, fatal);
            var q := Offered(s.prd.value, if e.accepted then Some(rec) else None);
            && Enabled(cfg, s, a)
            && Apply(cfg, s, a) == s.(log := s.log + Next(q, e.sent),
                                      prd := Some(Pumped(q, e.sent, e.dropped, error, fatal)))
    ensures var p, q := s.prd.value, Offered(s.prd.value, if e.accepted then Some(rec) else None);
            var after := Pumped(q, e.sent, e.dropped, error, fatal);
            && after.handed == (if e.accepted then p.handed + [rec] else p.handed)
            && after.transactional == p.transactional && after.closed == p.closed && after.txnOpen == p.txnOpen
            && after.requested == p.requested && after.landed == p.landed
            && after.failed == (p.failed || error) && after.fatal == (p.fatal || fatal)
  {
    hide CanPump, Next;
  }

  /** The same for a flush, which offers nothing. */
  lemma FlushAgrees(p: Prd, inflight: seq<Rec>, broken: bool, e: Effect, error: bool, fatal: bool)
    requires QueueAgrees(p, inflight, broken)
    requires e.sent + e.dropped <= |inflight| && (broken ==> e.sent == 0) && (e.dropped > 0 ==> error)
    ensures CanPump(p, e.sent, e.dropped, error) && Next(p, e.sent) == inflight[..e.sent]
    ensures QueueAgrees(Pumped(p, e.sent, e.dropped, error, fatal), inflight[e.sent + e.dropped..],
                        broken || e.dropped > 0)
    ensures Pumped(p, e.sent, e.dropped, error, fatal).pending == |inflight| - e.sent - e.dropped
  {
    PumpAgrees(p, inflight, broken, e.sent, e.dropped, error, fatal);
  }

  lemma MayFlush(cfg: Config, s: Sys, e: Effect, error: bool, fatal: bool)
    requires s.prd.Some? && !s.prd.value.closed && CanPump(s.prd.value, e.sent, e.dropped, error)
    ensures var a := Action.Flush(e.sent, e.dropped, error, fatal);
            && Enabled(cfg, s, a)
            && Apply(cfg, s, a) == s.(log := s.log + Next(s.prd.value, e.sent),
                                      prd := Some(Pumped(s.prd.value, e.sent, e.dropped, error, fatal)))
    ensures var p := s.prd.value;
            var after := Pumped(p, e.sent, e.dropped, error, fatal);
            && after.handed == p.handed
            && after.transactional == p.transactional && after.closed == p.closed && after.txnOpen == p.txnOpen
            && after.requested == p.requested && after.landed == p.landed
            && after.failed == (p.failed || error) && after.fatal == (p.fatal || fatal)
  {
    hide Next;
  }

  lemma MayClose(cfg: Config, s: Sys, inflight: seq<Rec>, broken: bool, buffer: seq<Rec>, requested: bool, landed: bool,
                 sent: nat, lands: bool)
    requires s.prd.Some? && !s.prd.value.closed && Idle(s) && QueueAgrees(s.prd.value, inflight, broken)
    requires s.prd.value.txnOpen ==>
      buffer == s.prd.value.handed && requested == s.prd.value.requested && landed == s.prd.value.landed
    requires sent <= |inflight| && (broken ==> sent == 0)
    requires lands ==> s.prd.value.transactional && s.prd.value.txnOpen && requested
    ensures var a := Action.CloseProducer(sent, lands);
            && Enabled(cfg, s, a)
            && Apply(cfg, s, a) == s.(log := s.log + (inflight[..sent] + if lands && !landed then buffer else []),
                                      prd := Some(s.prd.value.(closed := true)))
  {
    var p := s.prd.value;
    PumpAgrees(p, inflight, broken, sent, 0, false, false);
  }

  // ----------------------------------------------------------------- the flags

  lemma MayMarkDelivered(cfg: Config, s: Sys)
    requires s.prd.Some? && !s.prd.value.closed && !s.prd.value.transactional && ListenerReady(s) && Idle(s)
    requires s.prd.value.handed == s.lst.value.reply && s.prd.value.pending == 0 && !s.prd.value.failed
    ensures Enabled(cfg, s, MarkDelivered) && Apply(cfg, s, MarkDelivered) == s.(deliveredUnacked := true)
  {
  }

  lemma MayAwaitCommit(cfg: Config, s: Sys)
    requires s.prd.Some? && s.prd.value.transactional && s.prd.value.txnOpen && !s.prd.value.closed
    requires ListenerReady(s) && Idle(s) && s.prd.value.handed == s.lst.value.reply
    ensures Enabled(cfg, s, AwaitCommit) && Apply(cfg, s, AwaitCommit) == s.(commitOutstanding := true)
  {
  }

  lemma MayMarkCommitted(cfg: Config, s: Sys)
    requires s.prd.Some? && s.commitOutstanding && !s.prd.value.txnOpen
    ensures Enabled(cfg, s, MarkCommitted)
    ensures Apply(cfg, s, MarkCommitted) == s.(commitOutstanding := false, deliveredUnacked := true)
  {
  }

  lemma MayGiveUpCommit(cfg: Config, s: Sys)
    requires s.commitOutstanding
    ensures Enabled(cfg, s, GiveUpCommit) && Apply(cfg, s, GiveUpCommit) == s.(commitOutstanding := false)
  {
  }

  lemma MayMarkCheckpointed(cfg: Config, s: Sys)
    requires Saving(s) && Saved(cfg, s, s.lst.value.position)
    ensures Enabled(cfg, s, MarkCheckpointed) && Apply(cfg, s, MarkCheckpointed) == s.(checkpointed := true)
  {
  }

  lemma MayFinishReply(cfg: Config, s: Sys)
    requires s.lst.Some? && !s.lst.value.awaitingAck && s.deliveredUnacked && s.checkpointed
    ensures Enabled(cfg, s, FinishReply)
    ensures Apply(cfg, s, FinishReply) == s.(deliveredUnacked := false, checkpointed := false)
  {
  }

  // ----------------------------------------------------------- transactions

  lemma MayFatal(cfg: Config, s: Sys)
    requires s.prd.Some?
    ensures Enabled(cfg, s, Fatal) && Apply(cfg, s, Fatal) == s.(prd := Some(s.prd.value.(fatal := true)))
  {
  }

  lemma MayBegin(cfg: Config, s: Sys)
    requires s.prd.Some? && Usable(s.prd.value) && s.prd.value.transactional && !s.prd.value.txnOpen
    requires ListenerReady(s) && Idle(s) && s.prd.value.handed == []
    ensures Enabled(cfg, s, Begin) && Apply(cfg, s, Begin) == s.(prd := Some(s.prd.value.(txnOpen := true)))
  {
  }

  lemma MayCommit(cfg: Config, s: Sys, lands: bool, ok: bool, fatal: bool)
    requires s.prd.Some? && Usable(s.prd.value) && s.prd.value.transactional && s.prd.value.txnOpen
    requires s.commitOutstanding && (ok ==> lands || s.prd.value.landed)
    ensures var a, p := Commit(lands, ok, fatal), s.prd.value;
            && Enabled(cfg, s, a)
            && Apply(cfg, s, a) ==
               s.(log := s.log + (if lands && !p.landed then p.handed else []),
                  prd := Some(p.(requested := true, landed := p.landed || lands, txnOpen := !ok,
                                 failed := p.failed && !ok, fatal := p.fatal || fatal)))
  {
  }

  lemma MayAbort(cfg: Config, s: Sys, lands: bool, ok: bool)
    requires s.prd.Some? && Usable(s.prd.value) && s.prd.value.transactional && s.prd.value.txnOpen
    requires !s.commitOutstanding && !s.deliveredUnacked && (lands ==> s.prd.value.requested)
    ensures var a, p := Abort(lands, ok), s.prd.value;
            && Enabled(cfg, s, a)
            && Apply(cfg, s, a) ==
               s.(log := s.log + (if lands && !p.landed then p.handed else []),
                  prd := Some(p.(landed := p.landed || lands, txnOpen := !ok, failed := p.failed && !ok,
                                 fatal := p.fatal || !ok)))
  {
  }

  // ------------------------------------------------------------- the listener

  lemma MayConsume(cfg: Config, s: Sys, w: int, reply: seq<Rec>)
    requires s.lst.Some? && s.prd.Some? && NothingInFlight(s.prd.value) && Idle(s)
    requires !s.lst.value.awaitingAck && !s.lst.value.deliveryFailed && s.acked <= s.lst.value.position < w
    requires reply != [] && Concat(reply) == ReplyEvents(cfg.stream, s.lst.value.position, w)
    ensures var a := Consume(w, reply);
            && Enabled(cfg, s, a)
            && Apply(cfg, s, a) ==
               s.(lst := Some(Lst(s.lst.value.position, w, reply, true, false)),
                  prd := Some(s.prd.value.(batch := reply, from := s.lst.value.position, to := w, handed := [],
                                           delivered := 0, pending := 0, requested := false, landed := false)))
  {
  }

  lemma MayFailToConvert(cfg: Config, s: Sys, w: int)
    requires s.lst.Some? && Idle(s) && !s.lst.value.awaitingAck && !s.lst.value.deliveryFailed
    requires s.lst.value.position < w
    ensures Enabled(cfg, s, ConsumeUnreadable(w))
    ensures Apply(cfg, s, ConsumeUnreadable(w)) == s.(lst := Some(s.lst.value.(position := w, deliveryFailed := true)))
  {
  }

  lemma MayAcknowledge(cfg: Config, s: Sys, lands: bool, ok: bool)
    requires ListenerReady(s) && s.deliveredUnacked && s.checkpointed && (ok ==> lands)
    ensures var a, l := Acknowledge(lands, ok), s.lst.value;
            && Enabled(cfg, s, a)
            && Apply(cfg, s, a) ==
               s.(acked := if lands then Max(s.acked, l.position) else s.acked,
                  lst := Some(if ok then l.(base := l.position, reply := [], awaitingAck := false) else l))
  {
  }

  // ------------------------------------------------------- starting and stopping

  lemma MayOpenFresh(cfg: Config, s: Sys)
    requires s.lst.None? && s.prd.None? && Idle(s) && (cfg.persist ==> s.disk.path.None?)
    ensures Enabled(cfg, s, OpenFresh) && Apply(cfg, s, OpenFresh) == s.(lst := Some(NewListener(s.acked)))
  {
  }

  lemma MayOpenResumed(cfg: Config, s: Sys, cursor: Cursor, restored: bool, ok: bool)
    requires s.lst.None? && s.prd.None? && Idle(s) && cfg.persist && (ok ==> restored)
    requires s.disk.path == Some(Whole(cursor)) && cursor.streamName == cfg.streamName
    ensures var a := OpenResumed(restored, ok);
            && Enabled(cfg, s, a)
            && Apply(cfg, s, a) == s.(acked := if restored then Max(s.acked, cursor.version) else s.acked,
                                      lst := if ok then Some(NewListener(cursor.version)) else None)
  {
  }

  lemma MayOpenProducer(cfg: Config, s: Sys, transactional: bool)
    requires s.lst.Some? && s.prd.None? && Idle(s) && !s.lst.value.awaitingAck
    ensures var a := OpenProducer(transactional);
            Enabled(cfg, s, a) && Apply(cfg, s, a) == s.(prd := Some(NewProducer(transactional)))
  {
  }

  lemma MayDropPipeline(cfg: Config, s: Sys, stopping: bool)
    requires stopping || !s.commitOutstanding
    ensures var a := DropPipeline(stopping);
            && Enabled(cfg, s, a)
            && Apply(cfg, s, a) == s.(commitOutstanding := false, deliveredUnacked := false, checkpointed := false)
  {
  }

  lemma MayCloseListener(cfg: Config, s: Sys)
    requires s.lst.Some? && Idle(s)
    ensures Enabled(cfg, s, CloseListener) && Apply(cfg, s, CloseListener) == s.(lst := None)
  {
  }

  lemma MayDropProducer(cfg: Config, s: Sys)
    requires s.prd.Some? && s.prd.value.closed && s.lst.None? && Idle(s)
    ensures Enabled(cfg, s, DropProducer) && Apply(cfg, s, DropProducer) == s.(prd := None)
  {
  }

  // ------------------------------------------------------------------ the disk

  lemma MaySave(cfg: Config, s: Sys, a: Action)
    requires Saving(s) && cfg.persist
    requires var c := Some(Whole(CursorAt(cfg, s.lst.value.position)));
             || a.WriteTmp? || (a.SyncTmp? && s.disk.tmp == c) || (a.Rename? && s.disk.tmp == c && s.disk.tmpSynced)
             || (a.SyncDir? && cfg.dirSync)
    ensures Enabled(cfg, s, a)
    ensures Apply(cfg, s, a) ==
            var c := CursorAt(cfg, s.lst.value.position);
            s.(disk := match a
                       case WriteTmp(whole) =>
                         s.disk.(tmp := Some(if whole then Whole(c) else Torn), tmpSynced := false)
                       case SyncTmp => s.disk.(tmpSynced := true)
                       case Rename => Disk(None, false, s.disk.tmp, s.disk.survivors + {s.disk.tmp})
                       case _ => s.disk.(survivors := {s.disk.path}))
  {
  }

  /** Records a save that got as far as `stage`. */
  ghost method NoteSave(world: World, stage: SaveStage)
    requires world.Valid() && Saving(world.now) && world.cfg.persist && (stage.Durable? ==> world.cfg.dirSync)
    modifies world`acts, world`now
    ensures world.Valid()
    ensures var c := CursorAt(world.cfg, old(world.now.lst.value.position));
            world.now == old(world.now).(disk := SavedDisk(old(world.now.disk), c, stage))
  {
    hide Enabled, Apply, Run, Exec;
    var c := CursorAt(world.cfg, world.now.lst.value.position);
    if stage.Untouched? {
      return;
    }
    MaySave(world.cfg, world.now, WriteTmp(!stage.Partial?));
    world.Do(WriteTmp(!stage.Partial?));
    if stage.Partial? || stage.Written? {
      return;
    }
    MaySave(world.cfg, world.now, SyncTmp);
    world.Do(SyncTmp);
    if stage.Synced? {
      return;
    }
    MaySave(world.cfg, world.now, Rename);
    world.Do(Rename);
    if stage.Renamed? {
      return;
    }
    MaySave(world.cfg, world.now, SyncDir);
    world.Do(SyncDir);
  }
}
