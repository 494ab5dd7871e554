/** The cursor file against the acknowledged watermark: what always holds, what can go wrong, and exactly when. */
module Durability {
  import opened Prelude
  import opened Stream
  import opened Protocol
  import opened ProtocolSafety
  import opened RunTheorems

  /** The version a cursor of the stream holds; other contents cannot be resumed from. */
  predicate NotOlder(cfg: Config, c: Option<Content>, v: int) {
    OurCursor(cfg, c) ==> v <= c.value.cursor.version
  }

  /** Nothing a power loss can bring back is older than `v`. */
  predicate NoneOlder(cfg: Config, d: Disk, v: int) {
    forall c :: c in d.survivors ==> NotOlder(cfg, c, v)
  }

  /** The durable cursor is not behind the acknowledged watermark. */
  predicate NotBehind(cfg: Config, s: Sys) {
    NoneOlder(cfg, s.disk, s.acked)
  }

  // ------------------------------------------------------ saved before the ack

  predicate SavedInv(cfg: Config, s: Sys) {
    && (s.checkpointed ==> s.lst.Some? && Saved(cfg, s, s.lst.value.position))
    && (s.disk.tmpSynced ==> s.disk.tmp.Some? && s.disk.tmp.value.Whole?)
    && s.disk.path in s.disk.survivors
  }

  lemma SavedStep(cfg: Config, s: Sys, a: Action)
    requires SavedInv(cfg, s) && Enabled(cfg, s, a)
    ensures SavedInv(cfg, Apply(cfg, s, a))
  {
    hide ReplyEvents, Concat, CanPump, CanLeave, Next, Leaves, Landing, Accept, NothingInFlight;
  }

  lemma {:induction false} RunKeepsSaved(cfg: Config, start: Sys, acts: seq<Action>)
    requires Start(cfg, start) && Exec(cfg, start, acts).Some?
    ensures SavedInv(cfg, Final(cfg, start, acts))
    decreases |acts|
  {
    if acts != [] {
      hide SavedInv, Enabled, Apply;
      RunKeepsSaved(cfg, start, acts[..|acts| - 1]);
      SavedStep(cfg, Final(cfg, start, acts[..|acts| - 1]), acts[|acts| - 1]);
    }
  }

  /** Every acknowledgement comes after its cursor is in the file, and durable where directories can be fsynced. */
  lemma AcknowledgedAfterSave(cfg: Config, start: Sys, acts: seq<Action>, lands: bool, ok: bool)
    requires Start(cfg, start) && Exec(cfg, start, acts).Some?
    requires Enabled(cfg, Final(cfg, start, acts), Acknowledge(lands, ok))
    ensures var s := Final(cfg, start, acts); Saved(cfg, s, s.lst.value.position)
  {
    RunKeepsSaved(cfg, start, acts);
  }

  // ------------------------------------------------------------- torn files

  predicate NoTorn(d: Disk) {
    && (forall c :: c in d.survivors ==> c != Some(Torn))
    && d.path in d.survivors
  }

  lemma NoTornStep(cfg: Config, s: Sys, a: Action)
    requires NoTorn(s.disk) && Enabled(cfg, s, a)
    ensures NoTorn(Apply(cfg, s, a).disk)
  {
    hide ReplyEvents, Concat, CanPump, CanLeave, Next, Leaves, Landing, Accept, NothingInFlight;
  }

  /** A crash or power loss at any point leaves a complete cursor file: never one cut off in the middle. */
  lemma {:induction false} NeverTorn(cfg: Config, start: Sys, acts: seq<Action>)
    requires Start(cfg, start) && start.disk.path != Some(Torn) && Exec(cfg, start, acts).Some?
    ensures NoTorn(Final(cfg, start, acts).disk)
    decreases |acts|
  {
    if acts != [] {
      hide Enabled, Apply;
      NeverTorn(cfg, start, acts[..|acts| - 1]);
      NoTornStep(cfg, Final(cfg, start, acts[..|acts| - 1]), acts[|acts| - 1]);
    }
  }

  // ------------------------------------------------- behind the watermark or not

  /**
   Restoring the acknowledgement of a loaded cursor keeps the durable cursor from falling behind if and only if
   nothing older than the loaded cursor can come back: that is, if its rename has reached the disk.
   */
  lemma RestoreKeepsExactly(cfg: Config, s: Sys, ok: bool)
    requires NotBehind(cfg, s) && s.disk.path in s.disk.survivors && Enabled(cfg, s, OpenResumed(true, ok))
    ensures NotBehind(cfg, Apply(cfg, s, OpenResumed(true, ok))) <==>
            NoneOlder(cfg, s.disk, s.disk.path.value.cursor.version)
  {
    assert NotOlder(cfg, s.disk.path, s.acked);
  }

  /** Nothing older than the visible cursor can come back. */
  predicate SafeToRestore(cfg: Config, d: Disk) {
    d.path.Some? && d.path.value.Whole? ==> NoneOlder(cfg, d, d.path.value.cursor.version)
  }

  /** Every resume of the run that restored an acknowledgement was safe. */
  predicate SafeResumes(cfg: Config, start: Sys, acts: seq<Action>)
    requires Exec(cfg, start, acts).Some?
    decreases |acts|
  {
    acts == [] ||
    (var init, a := acts[..|acts| - 1], acts[|acts| - 1];
     && SafeResumes(cfg, start, init)
     && (a.OpenResumed? && a.restored ==> SafeToRestore(cfg, Final(cfg, start, init).disk)))
  }

  /** At no point of the run was the durable cursor behind the acknowledged watermark. */
  predicate AlwaysCovered(cfg: Config, start: Sys, acts: seq<Action>)
    requires Exec(cfg, start, acts).Some?
    decreases |acts|
  {
    && NotBehind(cfg, Final(cfg, start, acts))
    && (acts != [] ==> AlwaysCovered(cfg, start, acts[..|acts| - 1]))
  }

  predicate DurableInv(cfg: Config, s: Sys) {
    && NotBehind(cfg, s)
    && (s.lst.Some? ==> s.acked <= s.lst.value.position)
  }

  lemma DurableStep(cfg: Config, s: Sys, a: Action)
    requires cfg.persist && cfg.dirSync && DurableInv(cfg, s) && SavedInv(cfg, s) && Enabled(cfg, s, a)
    requires a.OpenResumed? && a.restored ==> SafeToRestore(cfg, s.disk)
    ensures DurableInv(cfg, Apply(cfg, s, a))
  {
    hide ReplyEvents, Concat, CanPump, CanLeave, Next, Leaves, Landing, Accept, NothingInFlight;
    assert NotOlder(cfg, s.disk.path, s.acked);
  }

  /** A resume that is not safe leaves the durable cursor behind. */
  lemma UnsafeStep(cfg: Config, s: Sys, a: Action)
    requires NotBehind(cfg, s) && SavedInv(cfg, s) && Enabled(cfg, s, a) && a.OpenResumed? && a.restored
    requires NotBehind(cfg, Apply(cfg, s, a))
    ensures SafeToRestore(cfg, s.disk)
  {
    hide ReplyEvents, Concat;
    RestoreKeepsExactly(cfg, s, a.ok);
  }

  /**
   Where directories can be fsynced, no cursor that can come back is ever behind the acknowledged watermark if and only
   if every acknowledgement was restored from a cursor that nothing older could replace any more. Then no open
   listener stands before the watermark either, so none is refused as too old.
   */
  lemma {:induction false} NeverBehindExactly(cfg: Config, start: Sys, acts: seq<Action>)
    requires cfg.persist && cfg.dirSync && Start(cfg, start) && Exec(cfg, start, acts).Some?
    ensures AlwaysCovered(cfg, start, acts) <==> SafeResumes(cfg, start, acts)
    ensures SafeResumes(cfg, start, acts) ==> DurableInv(cfg, Final(cfg, start, acts))
    decreases |acts|
  {
    if acts != [] {
      hide SavedInv, Enabled, Apply, NotBehind, SafeToRestore;
      var init, a := acts[..|acts| - 1], acts[|acts| - 1];
      NeverBehindExactly(cfg, start, init);
      RunKeepsSaved(cfg, start, init);
      var s := Final(cfg, start, init);
      if SafeResumes(cfg, start, acts) {
        DurableStep(cfg, s, a);
      } else if AlwaysCovered(cfg, start, acts) {
        UnsafeStep(cfg, s, a);
        assert false;
      }
    }
  }
}
