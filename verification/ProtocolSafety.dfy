/** What every action keeps, and what therefore holds in every state of every run. */
module ProtocolSafety {
  import opened Prelude
  import opened Stream
  import opened Protocol

  // --------------------------------------------------------- parts of a reply

  /** Where the log is once the first `k` events of the reply between two positions are in it, at the least. */
  function Reached(gs: seq<CommitGroup>, from: int, to: int, k: nat): nat {
    if Upto(gs, from) + k <= Upto(gs, to) then Upto(gs, from) + k else Upto(gs, to)
  }

  lemma ReplyIs(gs: seq<CommitGroup>, from: int, to: int)
    requires Ascending(gs) && from < to
    ensures Upto(gs, from) <= Upto(gs, to) <= |Events(gs)|
    ensures ReplyEvents(gs, from, to)
         == Events(gs)[Upto(gs, from)..Upto(gs, to)] + if HasGroup(gs, to) then [] else [End(to, 0)]
  {
    UptoSlice(gs, from, to);
  }

  /** A part of a slice with something behind it, when it ends within the slice or is empty. */
  lemma SliceOf<T>(s: seq<T>, rest: seq<T>, lo: nat, hi: nat, a: nat, b: nat)
    requires lo <= hi <= |s| && a <= b <= hi - lo + |rest| && (lo + b <= hi || a == b)
    ensures var x, y := if lo + a <= hi then lo + a else hi, if lo + b <= hi then lo + b else hi;
            (s[lo..hi] + rest)[a..b] == s[x..y]
  {
    if lo + b <= hi {
      assert (s[lo..hi] + rest)[a..b] == s[lo..hi][a..b] == s[lo + a..lo + b];
    } else {
      assert (s[lo..hi] + rest)[a..a] == [];
    }
  }

  lemma ScanReplyPart(gs: seq<CommitGroup>, from: int, to: int, n: nat, a: nat, b: nat)
    requires Ascending(gs) && from < to && n <= |Events(gs)|
    requires a <= b <= |ReplyEvents(gs, from, to)| && Reached(gs, from, to, a) <= n
    ensures Scan(gs, n, ReplyEvents(gs, from, to)[a..b]) == Some(Max(n, Reached(gs, from, to, b)))
  {
    hide Events, HasGroup, Upto, ReplyEvents, Scan, Advance;
    ReplyIs(gs, from, to);
    var ev, all := Events(gs), ReplyEvents(gs, from, to);
    var x, y := Reached(gs, from, to, a), Reached(gs, from, to, b);
    ScanSlice(gs, n, x, y);
    if Upto(gs, from) + b <= Upto(gs, to) || a == b {
      SliceOf(ev, if HasGroup(gs, to) then [] else [End(to, 0)], Upto(gs, from), Upto(gs, to), a, b);
    } else {
      // The part reaches past the last group: its last event is the heartbeat of the watermark.
      assert all[a..b] == ev[x..y] + [End(to, 0)];
      ScanAppend(gs, n, ev[x..y], [End(to, 0)]);
      ScanOne(gs, Max(n, y), End(to, 0));
      HeartbeatStays(gs, to, Max(n, y));
    }
  }

  lemma HeartbeatStays(gs: seq<CommitGroup>, to: int, n: nat)
    requires Upto(gs, to) <= n <= |Events(gs)| && !HasGroup(gs, to)
    ensures Advance(gs, n, End(to, 0)) == Some(n)
  {
    hide HasGroup;
    if n < |Events(gs)| && Events(gs)[n] == End(to, 0) {
      var g := EventIs(gs, n);
      NoGroup(gs, to, g);
    }
  }

  lemma NoGroup(gs: seq<CommitGroup>, v: int, g: nat)
    requires g < |gs| && gs[g].version == v
    ensures HasGroup(gs, v)
  {
  }

  lemma {:induction false} ConcatSlice(parts: seq<Rec>, a: nat, b: nat)
    requires a <= b <= |parts|
    ensures |Concat(parts[..a])| <= |Concat(parts[..b])| <= |Concat(parts)|
    ensures Concat(parts[a..b]) == Concat(parts)[|Concat(parts[..a])|..|Concat(parts[..b])|]
  {
    assert parts == parts[..a] + parts[a..b] + parts[b..] && parts[..b] == parts[..a] + parts[a..b];
    ConcatAppend(parts[..a] + parts[a..b], parts[b..]);
    ConcatAppend(parts[..a], parts[a..b]);
  }

  /** Records `a` to `b` of a reply, delivered once those before `a` are in the log. */
  lemma ScanBatchPart(gs: seq<CommitGroup>, from: int, to: int, batch: seq<Rec>, n: nat, a: nat, b: nat)
    requires Ascending(gs) && from < to && n <= |Events(gs)| && Concat(batch) == ReplyEvents(gs, from, to)
    requires a <= b <= |batch| && Reached(gs, from, to, |Concat(batch[..a])|) <= n
    ensures Scan(gs, n, Concat(batch[a..b])) == Some(Max(n, Reached(gs, from, to, |Concat(batch[..b])|)))
  {
    ConcatSlice(batch, a, b);
    ScanReplyPart(gs, from, to, n, |Concat(batch[..a])|, |Concat(batch[..b])|);
  }

  /** All of a batch takes the log to its end. */
  lemma ReachedAll(gs: seq<CommitGroup>, from: int, to: int, batch: seq<Rec>)
    requires Ascending(gs) && from < to && Concat(batch) == ReplyEvents(gs, from, to)
    ensures Reached(gs, from, to, |Concat(batch)|) == Upto(gs, to)
    ensures Reached(gs, from, to, 0) == Upto(gs, from) <= Upto(gs, to)
  {
    UptoSlice(gs, from, to);
  }

  // ------------------------------------------------------------- the invariant

  /** The log is in order, and has got as far as event `n` of the stream. */
  predicate LogAt(cfg: Config, log: seq<Rec>, n: nat) {
    n <= |Events(cfg.stream)| && Scan(cfg.stream, 0, Concat(log)) == Some(n)
  }

  predicate OurCursor(cfg: Config, c: Option<Content>) {
    c.Some? && c.value.Whole? && c.value.cursor.streamName == cfg.streamName
  }

  predicate CursorBehind(cfg: Config, c: Option<Content>, n: nat) {
    OurCursor(cfg, c) ==> Upto(cfg.stream, c.value.cursor.version) <= n
  }

  /** No cursor of this stream, visible or durable, is ahead of what has been delivered. */
  predicate DiskBehind(cfg: Config, d: Disk, n: nat) {
    && CursorBehind(cfg, d.path, n)
    && (forall c :: c in d.survivors ==> CursorBehind(cfg, c, n))
    && d.path in d.survivors
  }

  /** The listener's last reply begins where everything has been delivered. */
  predicate LstInv(cfg: Config, l: Lst, n: nat) {
    && Upto(cfg.stream, l.base) <= n
    && l.base <= l.position
    && (l.awaitingAck ==>
          && l.base < l.position && !l.deliveryFailed && Concat(l.reply) == ReplyEvents(cfg.stream, l.base, l.position))
    && (!l.awaitingAck && !l.deliveryFailed ==> l.base == l.position)
  }

  /** The producer has been handed a prefix of its batch, and the log has what it delivered of it. */
  predicate PrdInv(cfg: Config, p: Prd, n: nat) {
    && (p.handed != [] ==>
          && p.from < p.to && Upto(cfg.stream, p.from) <= n && p.handed <= p.batch
          && Concat(p.batch) == ReplyEvents(cfg.stream, p.from, p.to))
    && (p.transactional ==> p.pending == 0 && p.delivered == 0 && !p.broken)
    && (!p.transactional ==> !p.txnOpen && !p.landed && !p.requested)
    && (p.broken ==> p.failed)
    && (!p.transactional && !p.broken ==> p.delivered + p.pending == |p.handed|)
    && (!p.transactional && !p.broken && p.handed != [] ==>
          Reached(cfg.stream, p.from, p.to, |Concat(p.handed[..p.delivered])|) <= n)
    && (p.requested || p.landed ==> p.handed == p.batch && p.handed != [])
    && (p.landed ==> Upto(cfg.stream, p.to) <= n)
  }

  /** The producer works on the reply that awaits acknowledgement, and on nothing else. */
  predicate Joined(l: Lst, p: Prd) {
    && (l.awaitingAck ==> p.batch == l.reply && p.from == l.base && p.to == l.position && l.reply != [])
    && (!l.awaitingAck ==> NothingInFlight(p))
  }

  predicate FlagsInv(cfg: Config, s: Sys, n: nat) {
    && !(s.commitOutstanding && s.deliveredUnacked)
    && (s.checkpointed ==> s.deliveredUnacked)
    && (s.commitOutstanding ==>
          && ListenerReady(s) && s.prd.Some?
          && s.prd.value.transactional && !s.prd.value.closed && s.prd.value.handed == s.prd.value.batch
          && (s.prd.value.txnOpen || s.prd.value.landed))
    && (s.deliveredUnacked ==>
          && s.lst.Some? && s.prd.Some? && !s.lst.value.deliveryFailed && NothingInFlight(s.prd.value)
          && Upto(cfg.stream, s.lst.value.position) <= n
          && (s.lst.value.awaitingAck || s.checkpointed))
  }

  predicate InvAt(cfg: Config, s: Sys, n: nat) {
    && LogAt(cfg, s.log, n)
    && Upto(cfg.stream, s.acked) <= n
    && DiskBehind(cfg, s.disk, n)
    && (s.lst.Some? ==> LstInv(cfg, s.lst.value, n))
    && (s.prd.Some? && !s.prd.value.closed ==> PrdInv(cfg, s.prd.value, n))
    && (s.lst.Some? && s.prd.Some? && !s.prd.value.closed ==> Joined(s.lst.value, s.prd.value))
    && FlagsInv(cfg, s, n)
  }

  // --------------------------------------------------- growing the log

  lemma LogGrows(cfg: Config, log: seq<Rec>, recs: seq<Rec>, n: nat, m: nat)
    requires LogAt(cfg, log, n) && n <= |Events(cfg.stream)| && Scan(cfg.stream, n, Concat(recs)) == Some(m)
    ensures LogAt(cfg, log + recs, m) && n <= m
  {
    ConcatAppend(log, recs);
    ScanAppend(cfg.stream, 0, Concat(log), Concat(recs));
  }

  /** The queue delivers in order: the log grows by the next part of the batch. */
  lemma QueueDelivers(cfg: Config, log: seq<Rec>, p: Prd, n: nat, sent: nat) returns (m: nat)
    requires LogAt(cfg, log, n) && PrdInv(cfg, p, n)
    requires sent <= p.pending && (p.broken ==> sent == 0)
    ensures n <= m && LogAt(cfg, log + Next(p, sent), m)
    ensures !p.transactional && !p.broken && p.handed != [] ==>
      Reached(cfg.stream, p.from, p.to, |Concat(p.handed[..p.delivered + sent])|) <= m
  {
    hide Scan, Upto, ReplyEvents, Reached, Concat;
    if p.broken || p.transactional || p.handed == [] {
      m := n;
      assert Next(p, sent) == [] && log + [] == log;
    } else {
      var k := p.delivered;
      assert p.handed[..k] == p.batch[..k] && p.handed[..k + sent] == p.batch[..k + sent];
      assert Next(p, sent) == p.batch[k..k + sent];
      ScanBatchPart(cfg.stream, p.from, p.to, p.batch, n, k, k + sent);
      m := Max(n, Reached(cfg.stream, p.from, p.to, |Concat(p.batch[..k + sent])|));
      LogGrows(cfg, log, Next(p, sent), n, m);
    }
  }

  /** A transaction that takes effect adds the whole batch. */
  lemma TransactionLands(cfg: Config, log: seq<Rec>, p: Prd, n: nat) returns (m: nat)
    requires LogAt(cfg, log, n) && PrdInv(cfg, p, n) && p.handed == p.batch && p.handed != []
    ensures n <= m && LogAt(cfg, log + p.handed, m) && Upto(cfg.stream, p.to) <= m
  {
    hide Scan, Upto, ReplyEvents;
    ReachedAll(cfg.stream, p.from, p.to, p.batch);
    assert p.batch[..0] == [] && p.batch[..|p.batch|] == p.batch && p.batch[0..|p.batch|] == p.batch;
    ScanBatchPart(cfg.stream, p.from, p.to, p.batch, n, 0, |p.batch|);
    m := Max(n, Upto(cfg.stream, p.to));
    LogGrows(cfg, log, p.handed, n, m);
  }

  lemma PumpKeeps(cfg: Config, log: seq<Rec>, p: Prd, n: nat, sent: nat, dropped: nat, error: bool, fatal: bool)
    returns (m: nat)
    requires LogAt(cfg, log, n) && PrdInv(cfg, p, n) && CanPump(p, sent, dropped, error)
    ensures n <= m && LogAt(cfg, log + Next(p, sent), m)
    ensures PrdInv(cfg, Pumped(p, sent, dropped, error, fatal), m)
  {
    m := QueueDelivers(cfg, log, p, n, sent);
    hide Scan, Upto, ReplyEvents, Concat, Reached, LogAt;
  }

  lemma AcceptKeeps(cfg: Config, p: Prd, rec: Rec, n: nat)
    requires PrdInv(cfg, p, n) && p.from < p.to && Upto(cfg.stream, p.from) <= n
    requires Concat(p.batch) == ReplyEvents(cfg.stream, p.from, p.to)
    requires |p.handed| < |p.batch| && p.handed <= p.batch && rec == p.batch[|p.handed|]
    requires !p.requested && !p.landed
    ensures PrdInv(cfg, Accept(p, rec), n)
  {
    hide Scan, Upto, ReplyEvents, Reached, Concat;
    var q := Accept(p, rec);
    ReachedAll(cfg.stream, p.from, p.to, p.batch);
    if !p.transactional && !p.broken {
      assert q.handed[..p.delivered] == p.handed[..p.delivered];
      if p.handed == [] {
        assert q.handed[..0] == [];
        ConcatEmpty();
      }
    }
  }

  lemma ConcatEmpty()
    ensures Concat<Event>([]) == []
  {
  }

  // ------------------------------------------------------ what each action keeps

  lemma OpenKeeps(cfg: Config, s: Sys, a: Action, n: nat) returns (m: nat)
    requires InvAt(cfg, s, n) && Enabled(cfg, s, a) && (a.OpenFresh? || a.OpenResumed? || a.OpenProducer?)
    ensures n <= m && InvAt(cfg, Apply(cfg, s, a), m)
  {
    hide Scan, Upto, ReplyEvents, Concat, Reached, LogAt;
    m := n;
  }

  lemma ConsumeKeeps(cfg: Config, s: Sys, a: Action, n: nat) returns (m: nat)
    requires InvAt(cfg, s, n) && Enabled(cfg, s, a) && (a.Consume? || a.ConsumeUnreadable?)
    ensures n <= m && InvAt(cfg, Apply(cfg, s, a), m)
  {
    hide Scan, Upto, ReplyEvents, Concat, Reached, LogAt;
    m := n;
  }

  lemma FlagKeeps(cfg: Config, s: Sys, a: Action, n: nat) returns (m: nat)
    requires InvAt(cfg, s, n) && Enabled(cfg, s, a)
    requires a.Fatal? || a.AwaitCommit? || a.GiveUpCommit? || a.FinishReply? || a.DropPipeline? || a.CloseListener?
             || a.DropProducer?
    ensures n <= m && InvAt(cfg, Apply(cfg, s, a), m)
  {
    hide Scan, Upto, ReplyEvents, Concat, Reached, LogAt;
    m := n;
  }

  lemma DiskKeeps(cfg: Config, s: Sys, a: Action, n: nat) returns (m: nat)
    requires InvAt(cfg, s, n) && Enabled(cfg, s, a)
    requires a.WriteTmp? || a.SyncTmp? || a.Rename? || a.SyncDir? || a.MarkCheckpointed?
    ensures n <= m && InvAt(cfg, Apply(cfg, s, a), m)
  {
    hide Scan, Upto, ReplyEvents, Concat, Reached, LogAt;
    m := n;
  }

  lemma AcknowledgeKeeps(cfg: Config, s: Sys, a: Action, n: nat) returns (m: nat)
    requires InvAt(cfg, s, n) && Enabled(cfg, s, a) && (a.Acknowledge?)
    ensures n <= m && InvAt(cfg, Apply(cfg, s, a), m)
  {
    hide Scan, Upto, ReplyEvents, Concat, Reached, LogAt;
    m := n;
  }

  lemma BeginKeeps(cfg: Config, s: Sys, a: Action, n: nat) returns (m: nat)
    requires InvAt(cfg, s, n) && Enabled(cfg, s, a) && (a.Begin?)
    ensures n <= m && InvAt(cfg, Apply(cfg, s, a), m)
  {
    hide Scan, Upto, ReplyEvents, Concat, Reached, LogAt;
    m := n;
  }

  lemma ProduceKeeps(cfg: Config, s: Sys, a: Action, n: nat) returns (m: nat)
    requires InvAt(cfg, s, n) && Enabled(cfg, s, a) && (a.Produce?)
    ensures n <= m && InvAt(cfg, Apply(cfg, s, a), m)
  {
    hide Scan, Upto, ReplyEvents, Concat, Reached, LogAt;
    var p, l := s.prd.value, s.lst.value;
    if a.accepted {
      AcceptKeeps(cfg, p, a.rec, n);
      m := PumpKeeps(cfg, s.log, Accept(p, a.rec), n, a.sent, a.dropped, a.error, a.fatal);
    } else {
      m := PumpKeeps(cfg, s.log, p, n, a.sent, a.dropped, a.error, a.fatal);
    }
  }

  lemma FlushKeeps(cfg: Config, s: Sys, a: Action, n: nat) returns (m: nat)
    requires InvAt(cfg, s, n) && Enabled(cfg, s, a) && (a.Flush?)
    ensures n <= m && InvAt(cfg, Apply(cfg, s, a), m)
  {
    hide Scan, Upto, ReplyEvents, Concat, Reached, LogAt, PrdInv;
    m := PumpKeeps(cfg, s.log, s.prd.value, n, a.sent, a.dropped, a.error, a.fatal);
  }

  lemma MarkDeliveredKeeps(cfg: Config, s: Sys, a: Action, n: nat) returns (m: nat)
    requires InvAt(cfg, s, n) && Enabled(cfg, s, a) && (a.MarkDelivered?)
    ensures n <= m && InvAt(cfg, Apply(cfg, s, a), m)
  {
    hide Scan, Upto, ReplyEvents, LogAt;
    var p := s.prd.value;
    m := n;
    assert !p.broken && p.delivered == |p.batch| && p.handed[..|p.batch|] == p.batch;
    ReachedAll(cfg.stream, p.from, p.to, p.batch);
  }

  lemma CommitKeeps(cfg: Config, s: Sys, a: Action, n: nat) returns (m: nat)
    requires InvAt(cfg, s, n) && Enabled(cfg, s, a) && (a.Commit?)
    ensures n <= m && InvAt(cfg, Apply(cfg, s, a), m)
  {
    hide Scan, Upto, ReplyEvents, Concat, Reached, LogAt;
    var p := s.prd.value;
    if a.lands && !p.landed {
      m := TransactionLands(cfg, s.log, p, n);
    } else {
      m := n;
      assert s.log + [] == s.log;
    }
  }

  lemma MarkCommittedKeeps(cfg: Config, s: Sys, a: Action, n: nat) returns (m: nat)
    requires InvAt(cfg, s, n) && Enabled(cfg, s, a) && (a.MarkCommitted?)
    ensures n <= m && InvAt(cfg, Apply(cfg, s, a), m)
  {
    hide Scan, Upto, ReplyEvents, Concat, Reached, LogAt;
    m := n;
  }

  lemma AbortKeeps(cfg: Config, s: Sys, a: Action, n: nat) returns (m: nat)
    requires InvAt(cfg, s, n) && Enabled(cfg, s, a) && (a.Abort?)
    ensures n <= m && InvAt(cfg, Apply(cfg, s, a), m)
  {
    hide Scan, Upto, ReplyEvents, Concat, Reached, LogAt;
    var p := s.prd.value;
    if a.lands && !p.landed {
      m := TransactionLands(cfg, s.log, p, n);
    } else {
      m := n;
      assert s.log + [] == s.log;
    }
  }

  /** An abandoned producer leaves part of its queue, or its transaction, in the log. */
  lemma LeavesKeep(cfg: Config, log: seq<Rec>, p: Prd, n: nat, sent: nat, lands: bool) returns (m: nat)
    requires LogAt(cfg, log, n) && PrdInv(cfg, p, n) && CanLeave(p, sent, lands)
    ensures n <= m && LogAt(cfg, log + Leaves(p, sent, lands), m)
  {
    hide Scan, Upto, ReplyEvents, Concat, Reached, LogAt;
    if lands && !p.landed {
      m := TransactionLands(cfg, log, p, n);
      assert Next(p, sent) == [] && Leaves(p, sent, lands) == p.handed;
    } else {
      m := QueueDelivers(cfg, log, p, n, sent);
      assert Leaves(p, sent, lands) == Next(p, sent);
    }
  }

  lemma CloseProducerKeeps(cfg: Config, s: Sys, a: Action, n: nat) returns (m: nat)
    requires InvAt(cfg, s, n) && Enabled(cfg, s, a) && (a.CloseProducer?)
    ensures n <= m && InvAt(cfg, Apply(cfg, s, a), m)
  {
    hide Scan, Upto, ReplyEvents, Concat, Reached, LogAt;
    m := LeavesKeep(cfg, s.log, s.prd.value, n, a.sent, a.lands);
  }

  lemma CrashKeeps(cfg: Config, s: Sys, a: Action, n: nat) returns (m: nat)
    requires InvAt(cfg, s, n) && Enabled(cfg, s, a) && (a.ProcessCrash? || a.PowerLoss?)
    ensures n <= m && InvAt(cfg, Apply(cfg, s, a), m)
  {
    hide Scan, Upto, ReplyEvents, Concat, Reached, LogAt;
    m := n;
    if s.prd.Some? && !s.prd.value.closed {
      m := LeavesKeep(cfg, s.log, s.prd.value, n, a.sent, a.lands);
    }
  }

  /** A consumer call that fails leaves the position where it was. */
  predicate Faithful(a: Action) {
    !a.ConsumeLost?
  }

  lemma ActionKeeps(cfg: Config, s: Sys, a: Action, n: nat) returns (m: nat)
    requires InvAt(cfg, s, n) && Enabled(cfg, s, a) && Faithful(a)
    ensures n <= m && InvAt(cfg, Apply(cfg, s, a), m)
  {
    hide InvAt, Enabled, Apply;
    match a {
      case OpenFresh | OpenResumed(_, _) | OpenProducer(_) => m := OpenKeeps(cfg, s, a, n);
      case Consume(_, _) | ConsumeUnreadable(_) => m := ConsumeKeeps(cfg, s, a, n);
      case Begin => m := BeginKeeps(cfg, s, a, n);
      case Produce(_, _, _, _, _, _) => m := ProduceKeeps(cfg, s, a, n);
      case Flush(_, _, _, _) => m := FlushKeeps(cfg, s, a, n);
      case MarkDelivered => m := MarkDeliveredKeeps(cfg, s, a, n);
      case Commit(_, _, _) => m := CommitKeeps(cfg, s, a, n);
      case MarkCommitted => m := MarkCommittedKeeps(cfg, s, a, n);
      case Abort(_, _) => m := AbortKeeps(cfg, s, a, n);
      case WriteTmp(_) | SyncTmp | Rename | SyncDir | MarkCheckpointed => m := DiskKeeps(cfg, s, a, n);
      case Acknowledge(_, _) => m := AcknowledgeKeeps(cfg, s, a, n);
      case CloseProducer(_, _) => m := CloseProducerKeeps(cfg, s, a, n);
      case ProcessCrash(_, _) | PowerLoss(_, _, _) => m := CrashKeeps(cfg, s, a, n);
      case _ => m := FlagKeeps(cfg, s, a, n);
    }
  }
}
