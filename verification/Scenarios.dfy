/** Runs in which a promise fails, by what the environment does outside its contract or between two steps. */
module Scenarios {
  import opened Prelude
  import opened Serializer
  import opened Stream
  import opened Protocol
  import opened ProtocolSafety
  import opened RunTheorems
  import opened Durability

  /** Two groups of one mutation each, at versions 0 and 1. */
  const FIRST := CommitGroup(0, [Native(0, [1], [])])
  const SECOND := CommitGroup(1, [Native(0, [2], [])])

  function TwoGroups(): Source {
    [FIRST, SECOND]
  }

  function Setup(persist: bool): Config {
    Config(TwoGroups(), 7, [115], persist, true)
  }

  function Clean(): Sys {
    Sys(-1, [], Disk(None, false, None, {None}), None, None, false, false, false)
  }

  lemma Replies()
    ensures Concat([GroupEvents(FIRST)]) == ReplyEvents(TwoGroups(), -1, 0) == GroupEvents(FIRST)
    ensures Concat([GroupEvents(SECOND)]) == ReplyEvents(TwoGroups(), 0, 1) == GroupEvents(SECOND)
  {
    var gs := TwoGroups();
    ConcatOne(GroupEvents(FIRST));
    ConcatOne(GroupEvents(SECOND));
    CutIs(gs, -1);
    CutIs(gs, 0);
    CutIs(gs, 1);
    assert Cut(gs, -1) == 0 && Cut(gs, 0) == 1 && Cut(gs, 1) == 2;
    assert gs[0..1] == [FIRST] && gs[1..2] == [SECOND];
    assert [FIRST][1..] == [] && [SECOND][1..] == [];
    assert Events([FIRST]) == GroupEvents(FIRST) + [] && Events([SECOND]) == GroupEvents(SECOND) + [];
    assert gs[0].version == 0 && gs[1].version == 1;
    assert HasGroup(gs, 0) && HasGroup(gs, 1);
  }

  // ------------------------------------------------------------ building a run

  lemma FaithfulStep(acts: seq<Action>, a: Action)
    ensures AllFaithful(acts + [a]) <==> AllFaithful(acts) && Faithful(a)
  {
    var more := acts + [a];
    assert more[|acts|] == a && forall i :: 0 <= i < |acts| ==> more[i] == acts[i];
  }

  lemma Then(cfg: Config, start: Sys, acts: seq<Action>, s: Sys, a: Action) returns (more: seq<Action>, t: Sys)
    requires Exec(cfg, start, acts) == Some(s) && Enabled(cfg, s, a)
    ensures more == acts + [a] && t == Apply(cfg, s, a)
    ensures Exec(cfg, start, more) == Some(t)
    ensures AllFaithful(more) <==> AllFaithful(acts) && Faithful(a)
  {
    hide Apply, Enabled, Exec, AllFaithful;
    FaithfulStep(acts, a);
    ExecStep(cfg, start, acts, a);
    more := acts + [a];
    t := Apply(cfg, s, a);
  }

  predicate Quiet(s: Sys) {
    && s.prd.Some? && !s.prd.value.transactional && Usable(s.prd.value) && !s.prd.value.txnOpen
    && !s.prd.value.failed && !s.prd.value.broken && s.prd.value.pending == 0
  }

  predicate Listening(s: Sys, position: int) {
    && s.lst == Some(Lst(position, position, [], false, false)) && Quiet(s) && Idle(s)
  }

  predicate Holding(s: Sys, base: int, position: int, reply: seq<Rec>) {
    && s.lst == Some(Lst(base, position, reply, true, false)) && Quiet(s)
    && s.deliveredUnacked && !s.commitOutstanding && !s.checkpointed
  }

  /** One reply of one record is consumed and delivered. */
  lemma Deliver(cfg: Config, start: Sys, acts: seq<Action>, s: Sys, p: int, w: int, r: Rec)
    returns (more: seq<Action>, t: Sys)
    requires Exec(cfg, start, acts) == Some(s) && Listening(s, p) && s.acked <= p < w
    requires Concat([r]) == ReplyEvents(cfg.stream, p, w)
    ensures AllFaithful(acts) <==> AllFaithful(more)
    ensures Exec(cfg, start, more) == Some(t) && Holding(t, p, w, [r])
    ensures t.log == s.log + [r] && t.disk == s.disk && t.acked == s.acked
  {
    hide Exec, ReplyEvents, Concat;
    more, t := Then(cfg, start, acts, s, Consume(w, [r]));
    more, t := Then(cfg, start, more, t, Produce(r, true, 1, 0, false, false));
    more, t := Then(cfg, start, more, t, MarkDelivered);
  }

  /** Its cursor is written and renamed into place. */
  lemma Save(cfg: Config, start: Sys, acts: seq<Action>, s: Sys, p: int, w: int, reply: seq<Rec>)
    returns (more: seq<Action>, t: Sys)
    requires Exec(cfg, start, acts) == Some(s) && Holding(s, p, w, reply) && cfg.persist
    ensures AllFaithful(acts) <==> AllFaithful(more)
    ensures Exec(cfg, start, more) == Some(t) && Holding(t, p, w, reply)
    ensures t.log == s.log && t.acked == s.acked
    ensures var c := Some(Whole(CursorAt(cfg, w)));
            t.disk == Disk(None, false, c, s.disk.survivors + {c})
  {
    hide Exec, ReplyEvents, Concat, CanPump, CanLeave, Leaves, Landing, Next, AllFaithful;
    more, t := Then(cfg, start, acts, s, WriteTmp(true));
    more, t := Then(cfg, start, more, t, SyncTmp);
    more, t := Then(cfg, start, more, t, Rename);
  }

  /** The reply is acknowledged; when a file is kept, its directory has been fsynced before. */
  lemma Finish(cfg: Config, start: Sys, acts: seq<Action>, s: Sys, p: int, w: int, reply: seq<Rec>)
    returns (more: seq<Action>, t: Sys)
    requires Exec(cfg, start, acts) == Some(s) && Holding(s, p, w, reply) && s.acked <= w && cfg.dirSync
    requires cfg.persist ==> s.disk.path == Some(Whole(CursorAt(cfg, w)))
    ensures AllFaithful(acts) <==> AllFaithful(more)
    ensures Exec(cfg, start, more) == Some(t) && Listening(t, w) && t.log == s.log && t.acked == w
    ensures cfg.persist ==> t.disk == s.disk.(survivors := {s.disk.path})
  {
    hide Exec, ReplyEvents, Concat, CanPump, CanLeave, Leaves, Landing, Next, AllFaithful;
    more, t := acts, s;
    if cfg.persist {
      more, t := Then(cfg, start, more, t, SyncDir);
    }
    more, t := Then(cfg, start, more, t, MarkCheckpointed);
    more, t := Conclude(cfg, start, more, t, p, w, reply);
  }

  lemma Conclude(cfg: Config, start: Sys, acts: seq<Action>, s: Sys, p: int, w: int, reply: seq<Rec>)
    returns (more: seq<Action>, t: Sys)
    requires Exec(cfg, start, acts) == Some(s) && Quiet(s) && s.acked <= w
    requires s.lst == Some(Lst(p, w, reply, true, false))
    requires s.deliveredUnacked && s.checkpointed && !s.commitOutstanding
    ensures AllFaithful(acts) <==> AllFaithful(more)
    ensures Exec(cfg, start, more) == Some(t) && Listening(t, w) && t.log == s.log && t.acked == w && t.disk == s.disk
  {
    hide Exec, ReplyEvents, Concat, CanPump, CanLeave, Leaves, Landing, Next, AllFaithful;
    more, t := Then(cfg, start, acts, s, Acknowledge(true, true));
    more, t := Then(cfg, start, more, t, FinishReply);
  }

  lemma ExecNothing(cfg: Config, s: Sys)
    ensures Exec(cfg, s, []) == Some(s)
  {
  }

  lemma Unstarted(cfg: Config)
    ensures Enabled(cfg, Clean(), OpenFresh)
    ensures var s := Apply(cfg, Clean(), OpenFresh);
            && Enabled(cfg, s, OpenProducer(false))
            && var t := Apply(cfg, s, OpenProducer(false));
               Listening(t, -1) && t.log == [] && t.disk == Clean().disk && t.acked == -1
  {
    hide ReplyEvents, Concat;
  }

  lemma Opens(cfg: Config) returns (acts: seq<Action>, s: Sys)
    ensures Exec(cfg, Clean(), acts) == Some(s) && Listening(s, -1) && AllFaithful(acts)
    ensures s.log == [] && s.disk == Clean().disk && s.acked == -1
  {
    hide Exec, ReplyEvents, Concat, Apply, Listening, Enabled;
    ExecNothing(cfg, Clean());
    Unstarted(cfg);
    acts, s := Then(cfg, Clean(), [], Clean(), OpenFresh);
    acts, s := Then(cfg, Clean(), acts, s, OpenProducer(false));
  }

  // ----------------------------------------------------- the cursor falls behind

  /** A rebuild: everything is closed and the listener resumed from the visible cursor. */
  lemma Rebuild(cfg: Config, start: Sys, acts: seq<Action>, s: Sys, p: int, w: int, reply: seq<Rec>)
    returns (more: seq<Action>, t: Sys)
    requires Exec(cfg, start, acts) == Some(s) && Holding(s, p, w, reply) && s.acked <= w && cfg.persist
    requires s.disk.path == Some(Whole(CursorAt(cfg, w)))
    ensures AllFaithful(acts) <==> AllFaithful(more)
    ensures Exec(cfg, start, more) == Some(t) && t.acked == w && t.disk == s.disk
    ensures t.lst == Some(NewListener(w)) && t.prd.None? && Idle(t)
  {
    hide Exec, ReplyEvents, Concat, CanPump, Leaves, Landing, Next, AllFaithful, Accept;
    more, t := Then(cfg, start, acts, s, Fatal);
    more, t := Then(cfg, start, more, t, DropPipeline(false));
    more, t := Then(cfg, start, more, t, CloseListener);
    more, t := Then(cfg, start, more, t, CloseProducer(0, false));
    more, t := Then(cfg, start, more, t, DropProducer);
    more, t := Then(cfg, start, more, t, OpenResumed(true, true));
  }

  /** The power fails, the cursor at `v` comes back, and the listener resumes from it. */
  lemma ComesBack(cfg: Config, start: Sys, acts: seq<Action>, s: Sys, v: int)
    returns (more: seq<Action>, t: Sys)
    requires Exec(cfg, start, acts) == Some(s) && cfg.persist && v < s.acked
    requires s.prd.None? && Some(Whole(CursorAt(cfg, v))) in s.disk.survivors
    ensures AllFaithful(acts) <==> AllFaithful(more)
    ensures Exec(cfg, start, more) == Some(t) && !NotBehind(cfg, t)
    ensures t.lst == Some(NewListener(v)) && t.acked == s.acked
  {
    hide Exec, ReplyEvents, Concat, CanPump, CanLeave, Leaves, Landing, Next, AllFaithful;
    var c := Some(Whole(CursorAt(cfg, v)));
    more, t := Then(cfg, start, acts, s, PowerLoss(0, false, c));
    more, t := Then(cfg, start, more, t, OpenResumed(true, true));
    assert c in t.disk.survivors && !NotOlder(cfg, c, t.acked);
  }

  /**
   The durable cursor can fall behind the acknowledged watermark, although every directory fsync is supported: the
   rename of the second cursor is visible, its directory fsync fails, the pipeline is rebuilt for another reason, the
   rebuilt listener restores the acknowledgement of the visible cursor, and the power fails. The old cursor is back,
   the watermark has passed it, and a listener resumed from it can consume nothing.
   */
  lemma CursorFallsBehind() returns (cfg: Config, acts: seq<Action>)
    ensures cfg.persist && cfg.dirSync && Run(cfg, Clean(), acts)
    ensures var s := Final(cfg, Clean(), acts);
            && !NotBehind(cfg, s)
            && s.lst == Some(NewListener(0)) && s.acked == 1
            && forall w, reply :: !Enabled(cfg, s, Consume(w, reply))
  {
    cfg := Setup(true);
    var start, s := Clean(), Clean();
    Replies();
    hide Exec, ReplyEvents, Concat, GroupEvents, Apply, NotBehind, AllFaithful;
    acts, s := Opens(cfg);
    acts, s := Deliver(cfg, start, acts, s, -1, 0, GroupEvents(FIRST));
    acts, s := Save(cfg, start, acts, s, -1, 0, [GroupEvents(FIRST)]);
    acts, s := Finish(cfg, start, acts, s, -1, 0, [GroupEvents(FIRST)]);
    acts, s := Deliver(cfg, start, acts, s, 0, 1, GroupEvents(SECOND));
    acts, s := Save(cfg, start, acts, s, 0, 1, [GroupEvents(SECOND)]);
    acts, s := Rebuild(cfg, start, acts, s, 0, 1, [GroupEvents(SECOND)]);
    acts, s := ComesBack(cfg, start, acts, s, 0);
  }

  // ------------------------------------------------ a consume that loses a reply

  /**
   Delivery at least once needs a failed consume to leave the position where it was: after one that advanced it, the
   next reply is delivered and acknowledged like any other, and the group in between is below the retention watermark
   without ever having been in the log.
   */
  lemma {:induction false} LostReply() returns (cfg: Config, acts: seq<Action>)
    ensures Start(cfg, Clean()) && Exec(cfg, Clean(), acts).Some? && !AllFaithful(acts)
    ensures !Delivered(cfg, Final(cfg, Clean(), acts), Final(cfg, Clean(), acts).acked)
  {
    cfg := Setup(false);
    var start, s := Clean(), Clean();
    Replies();
    acts, s := Skips(cfg);
    acts, s := DeliverSecond(cfg, acts, s);
    assert Concat(s.log) == GroupEvents(SECOND);
    assert cfg.stream[0] == FIRST && GroupEvents(FIRST)[0] == Mut(0, 0, FIRST.mutations[0]);
    assert GroupEvents(FIRST)[0] !in GroupEvents(SECOND);
  }

  lemma Skips(cfg: Config) returns (acts: seq<Action>, s: Sys)
    ensures Exec(cfg, Clean(), acts) == Some(s) && !AllFaithful(acts)
    ensures Listening(s, 0) && s.log == [] && s.acked == -1
  {
    acts, s := Opens(cfg);
    hide Exec, ReplyEvents, Concat, AllFaithful;
    acts, s := Then(cfg, Clean(), acts, s, ConsumeLost(0));
  }

  lemma DeliverSecond(cfg: Config, acts: seq<Action>, s: Sys) returns (more: seq<Action>, t: Sys)
    requires cfg == Setup(false) && Exec(cfg, Clean(), acts) == Some(s) && !AllFaithful(acts)
    requires Listening(s, 0) && s.log == [] && s.acked == -1
    ensures Exec(cfg, Clean(), more) == Some(t) && !AllFaithful(more)
    ensures t.log == [GroupEvents(SECOND)] && t.acked == 1
  {
    Replies();
    hide Exec, ReplyEvents, Concat, GroupEvents, AllFaithful, Apply;
    more, t := Deliver(cfg, Clean(), acts, s, 0, 1, GroupEvents(SECOND));
    more, t := Finish(cfg, Clean(), more, t, 0, 1, [GroupEvents(SECOND)]);
  }
}
