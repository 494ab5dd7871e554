/**
 The delivery protocol as a transition system. A state is what survives a crash (the retention watermark, the
 committed Kafka log, the cursor file) and what does not (the listener, the producer, the flags of the pipeline).
 An action is one call into FoundationDB, librdkafka or the file system with its outcome, or one update of a flag.
 The classes of the other modules take only enabled actions; what the actions keep true is proved in ProtocolSafety.
 */
module Protocol {
  import opened Prelude
  import opened Stream
  import Messages

  /** A Kafka record, as the events a consumer reads from it. */
  type Rec = seq<Event>

  datatype Cursor = Cursor(streamId: int, version: int, streamName: Messages.Name)

  /** The cursor file's contents: cut off in the middle, or complete. */
  datatype Content = Torn | Whole(cursor: Cursor)

  /**
   `path` is what the running system sees. After a power loss the directory entry is one of `survivors`, which a
   directory fsync reduces to the visible one.
   */
  datatype Disk = Disk(tmp: Option<Content>, tmpSynced: bool, path: Option<Content>, survivors: set<Option<Content>>)

  /** The constants of a run: the stream, whether a cursor file is configured, whether directories can be fsynced. */
  datatype Config = Config(stream: Source, streamId: int, streamName: Messages.Name, persist: bool, dirSync: bool)

  /** The listener and its native consumer. `base` is the position before the last consumed reply. */
  datatype Lst = Lst(base: int, position: int, reply: seq<Rec>, awaitingAck: bool, deliveryFailed: bool)

  /**
   The producer. `handed` are the records of the current reply `batch` that librdkafka accepted; it has delivered
   `delivered` of them and not reported on `pending`. `broken` says that one was given up; in order, no later one is
   delivered. In a transaction, `requested` says that a commit was asked for and `landed` that it has taken effect.
   */
  datatype Prd = Prd(
    transactional: bool, txnOpen: bool, fatal: bool, closed: bool, failed: bool,
    batch: seq<Rec>, from: int, to: int, handed: seq<Rec>, delivered: nat, pending: nat, broken: bool,
    requested: bool, landed: bool)

  datatype Sys = Sys(
    acked: int, log: seq<Rec>, disk: Disk,
    lst: Option<Lst>, prd: Option<Prd>,
    commitOutstanding: bool, deliveredUnacked: bool, checkpointed: bool)

  datatype Action =
    | OpenFresh
    | OpenResumed(restored: bool, ok: bool)
    | OpenProducer(transactional: bool)
    | Consume(watermark: int, reply: seq<Rec>)
    | ConsumeUnreadable(watermark: int)
    | ConsumeLost(watermark: int)
    | Fatal
    | Begin
    | Produce(rec: Rec, accepted: bool, sent: nat, dropped: nat, error: bool, fatal: bool)
    | Flush(sent: nat, dropped: nat, error: bool, fatal: bool)
    | MarkDelivered
    | AwaitCommit
    | Commit(lands: bool, ok: bool, fatal: bool)
    | MarkCommitted
    | GiveUpCommit
    | Abort(lands: bool, ok: bool)
    | WriteTmp(whole: bool)
    | SyncTmp
    | Rename
    | SyncDir
    | MarkCheckpointed
    | Acknowledge(lands: bool, ok: bool)
    | FinishReply
    | DropPipeline(stopping: bool)
    | CloseListener
    | CloseProducer(sent: nat, lands: bool)
    | DropProducer
    | ProcessCrash(sent: nat, lands: bool)
    | PowerLoss(sent: nat, lands: bool, survivor: Option<Content>)

  function NewListener(position: int): Lst {
    Lst(position, position, [], false, false)
  }

  function NewProducer(transactional: bool): Prd {
    Prd(transactional, false, false, false, false, [], 0, 0, [], 0, 0, false, false, false)
  }

  // ----------------------------------------------------------- the producer

  /** librdkafka reports on its queue: `sent` delivered in order, then `dropped` given up. */
  predicate CanPump(p: Prd, sent: nat, dropped: nat, error: bool) {
    && sent + dropped <= p.pending
    && (p.broken ==> sent == 0)
    && (dropped > 0 ==> error)
  }

  function Pumped(p: Prd, sent: nat, dropped: nat, error: bool, fatal: bool): Prd
    requires sent + dropped <= p.pending
  {
    p.(delivered := p.delivered + sent, pending := p.pending - sent - dropped, broken := p.broken || dropped > 0,
       failed := p.failed || error, fatal := p.fatal || fatal)
  }

  /** The next `sent` records in the queue. */
  function Next(p: Prd, sent: nat): seq<Rec> {
    if p.delivered + sent <= |p.handed| then p.handed[p.delivered..p.delivered + sent] else []
  }

  function Accept(p: Prd, rec: Rec): Prd {
    p.(handed := p.handed + [rec], pending := if p.transactional then 0 else p.pending + 1)
  }

  /** What a commit that takes effect adds to the log. */
  function Landing(p: Prd, lands: bool): seq<Rec> {
    if lands && !p.landed then p.handed else []
  }

  /** What an abandoned producer still delivers: part of its queue, or the transaction it asked to commit. */
  predicate CanLeave(p: Prd, sent: nat, lands: bool) {
    && sent <= p.pending
    && (p.broken ==> sent == 0)
    && (lands ==> p.transactional && p.txnOpen && p.requested)
  }

  function Leaves(p: Prd, sent: nat, lands: bool): seq<Rec> {
    Next(p, sent) + Landing(p, lands)
  }

  predicate Usable(p: Prd) {
    !p.closed && !p.fatal
  }

  predicate NothingInFlight(p: Prd) {
    p.closed || (p.pending == 0 && !p.txnOpen)
  }

  // ------------------------------------------------------------- the actions

  function CursorAt(cfg: Config, position: int): Cursor {
    Cursor(cfg.streamId, position, cfg.streamName)
  }

  predicate Idle(s: Sys) {
    !s.commitOutstanding && !s.deliveredUnacked && !s.checkpointed
  }

  /** The cursor file holds the position, and nothing older can come back if the file system allows knowing it. */
  predicate Saved(cfg: Config, s: Sys, position: int) {
    !cfg.persist
    || (&& s.disk.path == Some(Whole(CursorAt(cfg, position)))
        && (cfg.dirSync ==> s.disk.survivors == {s.disk.path}))
  }

  predicate ListenerReady(s: Sys) {
    s.lst.Some? && s.lst.value.awaitingAck && !s.lst.value.deliveryFailed
  }

  predicate Saving(s: Sys) {
    ListenerReady(s) && s.deliveredUnacked && !s.checkpointed
  }

  predicate Enabled(cfg: Config, s: Sys, a: Action) {
    match a
    case OpenFresh => s.lst.None? && s.prd.None? && Idle(s) && (cfg.persist ==> s.disk.path.None?)
    case OpenResumed(restored, ok) =>
      && s.lst.None? && s.prd.None? && Idle(s) && cfg.persist
      && s.disk.path.Some? && s.disk.path.value.Whole? && s.disk.path.value.cursor.streamName == cfg.streamName
      && (ok ==> restored)
    case OpenProducer(_) => s.lst.Some? && s.prd.None? && Idle(s) && !s.lst.value.awaitingAck
    case Consume(w, reply) =>
      && s.lst.Some? && s.prd.Some? && NothingInFlight(s.prd.value) && Idle(s)
      && !s.lst.value.awaitingAck && !s.lst.value.deliveryFailed
      && s.acked <= s.lst.value.position < w
      && reply != [] && Concat(reply) == ReplyEvents(cfg.stream, s.lst.value.position, w)
    case ConsumeUnreadable(w) =>
      && s.lst.Some? && Idle(s) && !s.lst.value.awaitingAck && !s.lst.value.deliveryFailed
      && s.lst.value.position < w
    case ConsumeLost(w) =>
      && s.lst.Some? && Idle(s) && !s.lst.value.awaitingAck && !s.lst.value.deliveryFailed
      && s.lst.value.position < w
    case Fatal => s.prd.Some?
    case Begin =>
      && s.prd.Some? && Usable(s.prd.value) && s.prd.value.transactional && !s.prd.value.txnOpen
      && ListenerReady(s) && Idle(s) && s.prd.value.handed == []
    case Produce(rec, accepted, sent, dropped, error, _) =>
      && s.prd.Some? && Usable(s.prd.value) && ListenerReady(s) && Idle(s)
      && (if s.prd.value.transactional then s.prd.value.txnOpen else !s.prd.value.failed)
      && |s.prd.value.handed| < |s.lst.value.reply| && rec == s.lst.value.reply[|s.prd.value.handed|]
      && CanPump(if accepted then Accept(s.prd.value, rec) else s.prd.value, sent, dropped, error)
    case Flush(sent, dropped, error, _) =>
      s.prd.Some? && !s.prd.value.closed && CanPump(s.prd.value, sent, dropped, error)
    case MarkDelivered =>
      && s.prd.Some? && !s.prd.value.closed && !s.prd.value.transactional && ListenerReady(s) && Idle(s)
      && s.prd.value.handed == s.lst.value.reply && s.prd.value.pending == 0 && !s.prd.value.failed
    case AwaitCommit =>
      && s.prd.Some? && s.prd.value.transactional && s.prd.value.txnOpen && !s.prd.value.closed
      && ListenerReady(s) && Idle(s) && s.prd.value.handed == s.lst.value.reply
    case Commit(lands, ok, _) =>
      && s.prd.Some? && Usable(s.prd.value) && s.prd.value.transactional && s.prd.value.txnOpen && s.commitOutstanding
      && (ok ==> lands || s.prd.value.landed)
    case MarkCommitted =>
      s.prd.Some? && s.commitOutstanding && !s.prd.value.txnOpen
    case GiveUpCommit =>
      s.commitOutstanding
    case Abort(lands, ok) =>
      && s.prd.Some? && Usable(s.prd.value) && s.prd.value.transactional && s.prd.value.txnOpen
      && !s.commitOutstanding && !s.deliveredUnacked && (lands ==> s.prd.value.requested)
    case WriteTmp(_) => Saving(s) && cfg.persist
    case SyncTmp => Saving(s) && s.disk.tmp == Some(Whole(CursorAt(cfg, s.lst.value.position)))
    case Rename =>
      Saving(s) && s.disk.tmp == Some(Whole(CursorAt(cfg, s.lst.value.position))) && s.disk.tmpSynced
    case SyncDir => Saving(s) && cfg.dirSync
    case MarkCheckpointed => Saving(s) && Saved(cfg, s, s.lst.value.position)
    case Acknowledge(lands, ok) =>
      ListenerReady(s) && s.deliveredUnacked && s.checkpointed && (ok ==> lands)
    case FinishReply =>
      s.lst.Some? && !s.lst.value.awaitingAck && s.deliveredUnacked && s.checkpointed
    case DropPipeline(stopping) => stopping || !s.commitOutstanding
    case CloseListener => s.lst.Some? && Idle(s)
    case CloseProducer(sent, lands) =>
      && s.prd.Some? && !s.prd.value.closed && Idle(s)
      && CanLeave(s.prd.value, sent, lands)
    case DropProducer => s.prd.Some? && s.prd.value.closed && s.lst.None? && Idle(s)
    case ProcessCrash(sent, lands) =>
      s.prd.Some? && !s.prd.value.closed ==> CanLeave(s.prd.value, sent, lands)
    case PowerLoss(sent, lands, survivor) =>
      && (s.prd.Some? && !s.prd.value.closed ==> CanLeave(s.prd.value, sent, lands))
      && survivor in s.disk.survivors
  }

  function WithPrd(s: Sys, p: Prd): Sys {
    s.(prd := Some(p))
  }

  function WithLst(s: Sys, l: Lst): Sys {
    s.(lst := Some(l))
  }

  /** Everything volatile is lost; the broker may still get what was on its way. */
  function Crashed(s: Sys, sent: nat, lands: bool): Sys
    requires s.prd.Some? && !s.prd.value.closed ==> CanLeave(s.prd.value, sent, lands)
  {
    s.(log := if s.prd.Some? && !s.prd.value.closed then s.log + Leaves(s.prd.value, sent, lands) else s.log,
       lst := None, prd := None, commitOutstanding := false, deliveredUnacked := false, checkpointed := false)
  }

  function Apply(cfg: Config, s: Sys, a: Action): Sys
    requires Enabled(cfg, s, a)
  {
    match a
    case OpenFresh => WithLst(s, NewListener(s.acked))
    case OpenResumed(restored, ok) =>
      var version := s.disk.path.value.cursor.version;
      s.(acked := if restored then Max(s.acked, version) else s.acked,
         lst := if ok then Some(NewListener(version)) else None)
    case OpenProducer(transactional) => WithPrd(s, NewProducer(transactional))
    case Consume(w, reply) =>
      var l := s.lst.value;
      s.(lst := Some(Lst(l.position, w, reply, true, false)),
         prd := Some(s.prd.value.(batch := reply, from := l.position, to := w,
                                handed := [], delivered := 0, pending := 0,
                                requested := false, landed := false)))
    case ConsumeUnreadable(w) => WithLst(s, s.lst.value.(position := w, deliveryFailed := true))
    case ConsumeLost(w) => WithLst(s, s.lst.value.(base := w, position := w))
    case Fatal => WithPrd(s, s.prd.value.(fatal := true))
    case Begin => WithPrd(s, s.prd.value.(txnOpen := true))
    case Produce(rec, accepted, sent, dropped, error, fatal) =>
      var p := if accepted then Accept(s.prd.value, rec) else s.prd.value;
      WithPrd(s.(log := s.log + Next(p, sent)), Pumped(p, sent, dropped, error, fatal))
    case Flush(sent, dropped, error, fatal) =>
      var p := s.prd.value;
      WithPrd(s.(log := s.log + Next(p, sent)), Pumped(p, sent, dropped, error, fatal))
    case MarkDelivered => s.(deliveredUnacked := true)
    case AwaitCommit => s.(commitOutstanding := true)
    case Commit(lands, ok, fatal) =>
      var p := s.prd.value;
      WithPrd(s.(log := s.log + Landing(p, lands)),
              p.(requested := true, landed := p.landed || lands, txnOpen := !ok,
                 failed := p.failed && !ok, fatal := p.fatal || fatal))
    case MarkCommitted => s.(commitOutstanding := false, deliveredUnacked := true)
    case GiveUpCommit => s.(commitOutstanding := false)
    case Abort(lands, ok) =>
      var p := s.prd.value;
      WithPrd(s.(log := s.log + Landing(p, lands)),
              p.(landed := p.landed || lands, txnOpen := !ok, failed := p.failed && !ok, fatal := p.fatal || !ok))
    case WriteTmp(whole) =>
      s.(disk := s.disk.(tmp := Some(if whole then Whole(CursorAt(cfg, s.lst.value.position)) else Torn),
                         tmpSynced := false))
    case SyncTmp => s.(disk := s.disk.(tmpSynced := true))
    case Rename =>
      s.(disk := Disk(None, false, s.disk.tmp, s.disk.survivors + {s.disk.tmp}))
    case SyncDir => s.(disk := s.disk.(survivors := {s.disk.path}))
    case MarkCheckpointed => s.(checkpointed := true)
    case Acknowledge(lands, ok) =>
      var l := s.lst.value;
      s.(acked := if lands then Max(s.acked, l.position) else s.acked,
         lst := Some(if ok then l.(base := l.position, reply := [], awaitingAck := false) else l))
    case FinishReply => s.(deliveredUnacked := false, checkpointed := false)
    case DropPipeline(_) => s.(commitOutstanding := false, deliveredUnacked := false, checkpointed := false)
    case CloseListener => s.(lst := None)
    case CloseProducer(sent, lands) =>
      var p := s.prd.value;
      WithPrd(s.(log := s.log + Leaves(p, sent, lands)), p.(closed := true))
    case DropProducer => s.(prd := None)
    case ProcessCrash(sent, lands) => Crashed(s, sent, lands)
    case PowerLoss(sent, lands, survivor) =>
      Crashed(s, sent, lands).(disk := Disk(None, false, survivor, {survivor}))
  }

  // -------------------------------------------------------------------- runs

  /** The state after a sequence of actions, if each was enabled when it was taken. */
  function Exec(cfg: Config, s: Sys, acts: seq<Action>): Option<Sys> {
    if acts == [] then Some(s)
    else match Exec(cfg, s, acts[..|acts| - 1])
      case None => None
      case Some(t) =>
        var a := acts[|acts| - 1];
        if Enabled(cfg, t, a) then Some(Apply(cfg, t, a)) else None
  }

  lemma ExecStep(cfg: Config, s: Sys, acts: seq<Action>, a: Action)
    ensures Exec(cfg, s, acts + [a]) ==
            match Exec(cfg, s, acts)
            case None => None
            case Some(t) => if Enabled(cfg, t, a) then Some(Apply(cfg, t, a)) else None
  {
    assert (acts + [a])[..|acts|] == acts;
  }

  /** Before the first start: nothing logged or acknowledged, no cursor of this stream. */
  predicate Start(cfg: Config, s: Sys) {
    && s.acked == -1 && s.log == [] && s.lst.None? && s.prd.None? && Idle(s)
    && s.disk.survivors == {s.disk.path} && s.disk.tmp.None? && !s.disk.tmpSynced
    && (s.disk.path.Some? ==> s.disk.path.value.Torn? || s.disk.path.value.cursor.streamName != cfg.streamName)
  }
}
