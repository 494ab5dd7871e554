/** Transactions land whole, and retries neither publish a reply twice nor acknowledge it twice. */
module Atomicity {
  import opened Prelude
  import opened Stream
  import opened Protocol
  import opened ProtocolSafety
  import opened RunTheorems

  // -------------------------------------------------------- whole transactions

  /** The records made of one native reply. */
  datatype Reply = Reply(from: int, to: int, records: seq<Rec>)

  predicate IsReply(gs: seq<CommitGroup>, r: Reply) {
    r.from < r.to && r.records != [] && Concat(r.records) == ReplyEvents(gs, r.from, r.to)
  }

  function Records(replies: seq<Reply>): seq<Rec> {
    if replies == [] then [] else Records(replies[..|replies| - 1]) + replies[|replies| - 1].records
  }

  predicate AllTransactional(acts: seq<Action>) {
    forall i :: 0 <= i < |acts| && acts[i].OpenProducer? ==> acts[i].transactional
  }

  lemma {:induction false} TransactionalThroughout(cfg: Config, start: Sys, acts: seq<Action>)
    requires Start(cfg, start) && Exec(cfg, start, acts).Some? && AllTransactional(acts)
    ensures var s := Final(cfg, start, acts); s.prd.Some? ==> s.prd.value.transactional
    decreases |acts|
  {
    if acts != [] {
      hide Enabled, Apply;
      TransactionalThroughout(cfg, start, acts[..|acts| - 1]);
      ProducerKind(cfg, Final(cfg, start, acts[..|acts| - 1]), acts[|acts| - 1]);
    }
  }

  lemma ProducerKind(cfg: Config, s: Sys, a: Action)
    requires Enabled(cfg, s, a) && (s.prd.Some? ==> s.prd.value.transactional)
    requires a.OpenProducer? ==> a.transactional
    ensures var t := Apply(cfg, s, a); t.prd.Some? ==> t.prd.value.transactional
  {
    hide ReplyEvents, Concat, CanPump, CanLeave, Next, Leaves, Landing, NothingInFlight;
  }

  /** What one action adds to the log of a transactional producer: nothing, or all records of its reply. */
  lemma TransactionStep(cfg: Config, s: Sys, a: Action, n: nat) returns (part: seq<Rec>)
    requires InvAt(cfg, s, n) && Enabled(cfg, s, a) && (s.prd.Some? ==> s.prd.value.transactional)
    ensures Apply(cfg, s, a).log == s.log + part
    ensures part != [] ==> s.prd.Some? && part == s.prd.value.batch
                           && IsReply(cfg.stream, Reply(s.prd.value.from, s.prd.value.to, s.prd.value.batch))
  {
    hide Scan, Upto, ReplyEvents, Concat, Reached, LogAt;
    part := Apply(cfg, s, a).log[|s.log|..];
  }

  lemma RecordsMore(replies: seq<Reply>, reply: Reply)
    ensures Records(replies + [reply]) == Records(replies) + reply.records
  {
    assert (replies + [reply])[..|replies|] == replies;
  }

  /** Transactional atomicity: the committed log is always a concatenation of whole replies. */
  lemma {:induction false} LogIsWholeReplies(cfg: Config, start: Sys, acts: seq<Action>) returns (replies: seq<Reply>)
    requires Run(cfg, start, acts) && AllTransactional(acts)
    ensures Records(replies) == Final(cfg, start, acts).log
    ensures forall i :: 0 <= i < |replies| ==> IsReply(cfg.stream, replies[i])
    decreases |acts|
  {
    if acts == [] {
      replies := [];
    } else {
      hide InvAt, Enabled, Apply, IsReply, Records;
      var init, a := acts[..|acts| - 1], acts[|acts| - 1];
      replies := LogIsWholeReplies(cfg, start, init);
      var n := RunKeepsInv(cfg, start, init);
      TransactionalThroughout(cfg, start, init);
      var s := Final(cfg, start, init);
      var part := TransactionStep(cfg, s, a, n);
      if part != [] {
        var reply := Reply(s.prd.value.from, s.prd.value.to, s.prd.value.batch);
        RecordsMore(replies, reply);
        replies := replies + [reply];
      } else {
        assert s.log + part == s.log;
      }
    }
  }

  /**
   While a commit is outstanding its transaction holds the whole reply and is open, or has landed; and nothing polls,
   produces, aborts, saves, acknowledges or rebuilds.
   */
  lemma CommitOutstandingExcludes(cfg: Config, start: Sys, acts: seq<Action>, a: Action)
    requires Run(cfg, start, acts) && Final(cfg, start, acts).commitOutstanding
    requires Enabled(cfg, Final(cfg, start, acts), a)
    ensures var s := Final(cfg, start, acts);
            && !s.deliveredUnacked && ListenerReady(s) && s.prd.Some?
            && s.prd.value.transactional && !s.prd.value.closed && (s.prd.value.txnOpen || s.prd.value.landed)
            && s.prd.value.handed == s.lst.value.reply
    ensures !a.Consume? && !a.ConsumeUnreadable? && !a.Begin? && !a.Produce? && !a.Abort?
    ensures !a.WriteTmp? && !a.Rename? && !a.MarkCheckpointed? && !a.Acknowledge?
    ensures !a.OpenFresh? && !a.OpenResumed? && !a.OpenProducer? && !a.CloseListener? && !a.CloseProducer?
    ensures a.DropPipeline? ==> a.stopping
  {
    hide Scan, Upto, ReplyEvents, Concat, Reached, LogAt;
    var n := RunKeepsInv(cfg, start, acts);
  }

  // ------------------------------------------------------- nothing is sent twice

  /** The records librdkafka has accepted since the last reply was consumed. */
  function AcceptedSince(acts: seq<Action>): seq<Rec> {
    if acts == [] then []
    else match acts[|acts| - 1]
      case Consume(_, _) => []
      case Produce(rec, accepted, _, _, _, _) => AcceptedSince(acts[..|acts| - 1]) + if accepted then [rec] else []
      case _ => AcceptedSince(acts[..|acts| - 1])
  }

  /** The acknowledgements that have succeeded since then. */
  function AcksSince(acts: seq<Action>): nat {
    if acts == [] then 0
    else match acts[|acts| - 1]
      case Consume(_, _) => 0
      case Acknowledge(_, ok) => AcksSince(acts[..|acts| - 1]) + if ok then 1 else 0
      case _ => AcksSince(acts[..|acts| - 1])
  }

  /** The last reply consumed, and its watermark. */
  function LastConsumed(acts: seq<Action>): Option<(int, seq<Rec>)> {
    if acts == [] then None
    else match acts[|acts| - 1]
      case Consume(w, reply) => Some((w, reply))
      case _ => LastConsumed(acts[..|acts| - 1])
  }

  predicate OnceInv(s: Sys, acts: seq<Action>) {
    && AcksSince(acts) <= 1
    && (s.lst.Some? && s.lst.value.awaitingAck ==>
          && s.prd.Some? && AcceptedSince(acts) == s.prd.value.handed <= s.lst.value.reply
          && AcksSince(acts) == 0
          && LastConsumed(acts) == Some((s.lst.value.position, s.lst.value.reply))
          && (s.commitOutstanding || s.deliveredUnacked ==> s.prd.value.handed == s.lst.value.reply))
    && (s.commitOutstanding ==> ListenerReady(s) && !s.deliveredUnacked)
  }

  lemma OnceStep(cfg: Config, s: Sys, acts: seq<Action>, a: Action)
    requires OnceInv(s, acts) && Enabled(cfg, s, a)
    ensures OnceInv(Apply(cfg, s, a), acts + [a])
  {
    hide ReplyEvents, Concat, CanPump, CanLeave, Next, Leaves, Landing, NothingInFlight;
    assert (acts + [a])[..|acts|] == acts;
  }

  lemma {:induction false} RunKeepsOnce(cfg: Config, start: Sys, acts: seq<Action>)
    requires Start(cfg, start) && Exec(cfg, start, acts).Some?
    ensures OnceInv(Final(cfg, start, acts), acts)
    decreases |acts|
  {
    if acts != [] {
      var init := acts[..|acts| - 1];
      assert init + [acts[|acts| - 1]] == acts;
      hide OnceInv, Enabled, Apply;
      RunKeepsOnce(cfg, start, init);
      OnceStep(cfg, Final(cfg, start, init), init, acts[|acts| - 1]);
    }
  }

  /**
   No re-publish on retry: however many commits, saves and acknowledgements fail, each record of a polled reply is
   accepted by the producer at most once and in order, all of them exactly once by the time an acknowledgement may be
   issued; the acknowledged position is that reply's own, and a reply is acknowledged successfully at most once.
   */
  lemma PublishedOnce(cfg: Config, start: Sys, acts: seq<Action>, lands: bool, ok: bool)
    requires Start(cfg, start) && Exec(cfg, start, acts).Some?
    ensures var s := Final(cfg, start, acts);
            && AcksSince(acts) <= 1
            && (s.lst.Some? && s.lst.value.awaitingAck ==> AcceptedSince(acts) <= s.lst.value.reply)
            && (Enabled(cfg, s, Acknowledge(lands, ok)) ==>
                  && AcksSince(acts) == 0
                  && LastConsumed(acts) == Some((s.lst.value.position, AcceptedSince(acts))))
  {
    RunKeepsOnce(cfg, start, acts);
  }
}
