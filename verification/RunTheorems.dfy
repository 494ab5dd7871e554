/** The promises of the bridge, over every run: actions, errors, rebuilds, crashes and power losses, in any order. */
module RunTheorems {
  import opened Prelude
  import opened Stream
  import opened Protocol
  import opened ProtocolSafety

  predicate AllFaithful(acts: seq<Action>) {
    forall i :: 0 <= i < |acts| ==> Faithful(acts[i])
  }

  /** A run of the system: it starts before the first start, and every action was enabled. */
  predicate Run(cfg: Config, start: Sys, acts: seq<Action>) {
    Start(cfg, start) && Exec(cfg, start, acts).Some? && AllFaithful(acts)
  }

  function Final(cfg: Config, start: Sys, acts: seq<Action>): Sys
    requires Exec(cfg, start, acts).Some?
  {
    Exec(cfg, start, acts).value
  }

  lemma {:induction false} UptoNothing(gs: seq<CommitGroup>, v: int)
    requires Ascending(gs) && v < 0
    ensures Upto(gs, v) == 0
  {
    CutIs(gs, v);
    assert gs[..0] == [];
  }

  /** The invariant holds after every run. */
  lemma {:induction false} RunKeepsInv(cfg: Config, start: Sys, acts: seq<Action>) returns (n: nat)
    requires Run(cfg, start, acts)
    ensures InvAt(cfg, Final(cfg, start, acts), n)
    decreases |acts|
  {
    if acts == [] {
      UptoNothing(cfg.stream, -1);
      n := 0;
    } else {
      var init, a := acts[..|acts| - 1], acts[|acts| - 1];
      hide InvAt, Enabled, Apply;
      var m := RunKeepsInv(cfg, start, init);
      n := ActionKeeps(cfg, Final(cfg, start, init), a, m);
    }
  }

  // ------------------------------------------------------------ at least once

  /** Every event of every group up to version `v` is in the log. */
  predicate Delivered(cfg: Config, s: Sys, v: int) {
    forall g, i :: 0 <= g < |cfg.stream| && cfg.stream[g].version <= v && 0 <= i < |GroupEvents(cfg.stream[g])|
      ==> GroupEvents(cfg.stream[g])[i] in Concat(s.log)
  }

  /** The events of group `g` are those of the stream from some index on, below `Upto` of its version. */
  lemma {:induction false} GroupInStream(gs: seq<CommitGroup>, g: nat, i: nat, v: int) returns (k: nat)
    requires Ascending(gs) && g < |gs| && gs[g].version <= v && i < |GroupEvents(gs[g])|
    ensures k < Upto(gs, v) <= |Events(gs)| && Events(gs)[k] == GroupEvents(gs[g])[i]
  {
    k := GroupIndex(gs, g, i);
    BeforeCut(gs, k, v);
    UptoSlice(gs, v, v);
  }

  lemma {:induction false} GroupIndex(gs: seq<CommitGroup>, g: nat, i: nat) returns (k: nat)
    requires g < |gs| && i < |GroupEvents(gs[g])|
    ensures k < |Events(gs)| && Events(gs)[k] == GroupEvents(gs[g])[i]
  {
    if g == 0 {
      k := i;
    } else {
      k := GroupIndex(gs[1..], g - 1, i);
      k := k + |GroupEvents(gs[0])|;
    }
  }

  lemma LogHolds(cfg: Config, s: Sys, n: nat, v: int)
    requires LogAt(cfg, s.log, n) && Upto(cfg.stream, v) <= n
    ensures Delivered(cfg, s, v)
  {
    ScanCovers(cfg.stream, 0, Concat(s.log));
    forall g, i | 0 <= g < |cfg.stream| && cfg.stream[g].version <= v && 0 <= i < |GroupEvents(cfg.stream[g])|
      ensures GroupEvents(cfg.stream[g])[i] in Concat(s.log)
    {
      var k := GroupInStream(cfg.stream, g, i, v);
    }
  }

  /**
   At least once: in every state of every run, everything below the retention watermark is in the Kafka log, and so
   is everything up to any cursor of the stream that the disk holds or may hold after a power loss.
   */
  lemma AtLeastOnce(cfg: Config, start: Sys, acts: seq<Action>)
    requires Run(cfg, start, acts)
    ensures var s := Final(cfg, start, acts);
            && Delivered(cfg, s, s.acked)
            && (forall c :: c in s.disk.survivors && OurCursor(cfg, c) ==> Delivered(cfg, s, c.value.cursor.version))
            && (OurCursor(cfg, s.disk.path) ==> Delivered(cfg, s, s.disk.path.value.cursor.version))
  {
    var s := Final(cfg, start, acts);
    var n := RunKeepsInv(cfg, start, acts);
    LogHolds(cfg, s, n, s.acked);
    forall c | c in s.disk.survivors && OurCursor(cfg, c) ensures Delivered(cfg, s, c.value.cursor.version) {
      assert CursorBehind(cfg, c, n);
      LogHolds(cfg, s, n, c.value.cursor.version);
    }
  }

  /**
   What a consumer has that keeps the first occurrence of each (version, sequence_no): the mutations of a prefix of
   the source stream, one that reaches at least to the retention watermark.
   */
  ghost predicate GapFree(cfg: Config, s: Sys) {
    exists n :: Upto(cfg.stream, s.acked) <= n <= |Events(cfg.stream)|
                && FirstSeen(Concat(s.log)) == Mutations(Events(cfg.stream)[..n])
  }

  /** Gap-free order under redelivery, even when replays regroup replies and cut records elsewhere. */
  lemma GapFreeOrder(cfg: Config, start: Sys, acts: seq<Action>)
    requires Run(cfg, start, acts)
    ensures GapFree(cfg, Final(cfg, start, acts))
  {
    var n := RunKeepsInv(cfg, start, acts);
    FirstSeenIsPrefix(cfg.stream, Concat(Final(cfg, start, acts).log));
  }

  /** A version end in the log is true: it counts its group, and every mutation up to its version comes before it. */
  lemma VersionEndsAreTrue(cfg: Config, start: Sys, acts: seq<Action>, before: seq<Event>, e: Event, rest: seq<Event>)
    requires Run(cfg, start, acts) && Concat(Final(cfg, start, acts).log) == before + [e] + rest && e.End?
    ensures forall g :: 0 <= g < |cfg.stream| && cfg.stream[g].version == e.version
              ==> e.total == |cfg.stream[g].mutations|
    ensures !HasGroup(cfg.stream, e.version) ==> e.total == 0
    ensures forall i :: 0 <= i < |Events(cfg.stream)| && Events(cfg.stream)[i].Mut?
                        && Events(cfg.stream)[i].version <= e.version
              ==> Events(cfg.stream)[i] in before
  {
    var n := RunKeepsInv(cfg, start, acts);
    VersionEndIsTrue(cfg.stream, before, e, rest);
  }

  /** When an acknowledgement may be issued, its reply has been delivered whole and its cursor saved. */
  lemma AcknowledgedAfterDelivery(cfg: Config, start: Sys, acts: seq<Action>, lands: bool, ok: bool)
    requires Run(cfg, start, acts) && Enabled(cfg, Final(cfg, start, acts), Acknowledge(lands, ok))
    ensures var s := Final(cfg, start, acts);
            && Delivered(cfg, s, s.lst.value.position)
            && Concat(s.lst.value.reply) == ReplyEvents(cfg.stream, s.lst.value.base, s.lst.value.position)
  {
    var s := Final(cfg, start, acts);
    var n := RunKeepsInv(cfg, start, acts);
    LogHolds(cfg, s, n, s.lst.value.position);
  }
}
