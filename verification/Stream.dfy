/**
 The source stream as a sequence of events, and what a log of redelivered events may look like.

 A version group is its mutations in order and then its version end. A log is accepted by `Scan` when every event
 either continues the stream, repeats something already in the log, or is the version end of a version without
 mutations that the log has already passed.
 */
module Stream {
  import opened Prelude
  import opened Serializer

  /** One committed version group. */
  datatype CommitGroup = CommitGroup(version: int, mutations: seq<Native>)

  datatype Event =
    | Mut(version: int, sequenceNo: int, native: Native)
    | End(version: int, total: int)

  /** Versions are non-negative and strictly ascending. */
  predicate Ascending(gs: seq<CommitGroup>) {
    && (forall i :: 0 <= i < |gs| ==> gs[i].version >= 0)
    && (forall i, j :: 0 <= i < j < |gs| ==> gs[i].version < gs[j].version)
  }

  type Source = gs: seq<CommitGroup> | Ascending(gs) witness []

  function GroupEvents(g: CommitGroup): (r: seq<Event>)
    ensures |r| == |g.mutations| + 1
    ensures forall i :: 0 <= i < |g.mutations| ==> r[i] == Mut(g.version, i, g.mutations[i])
    ensures r[|g.mutations|] == End(g.version, |g.mutations|)
  {
    seq(|g.mutations|, i requires 0 <= i < |g.mutations| => Mut(g.version, i, g.mutations[i]))
    + [End(g.version, |g.mutations|)]
  }

  function Events(gs: seq<CommitGroup>): seq<Event> {
    if gs == [] then [] else GroupEvents(gs[0]) + Events(gs[1..])
  }

  /** How many groups have a version of at most `v`. */
  function Cut(gs: seq<CommitGroup>, v: int): (n: nat)
    ensures n <= |gs|
  {
    if gs == [] || gs[0].version > v then 0 else 1 + Cut(gs[1..], v)
  }

  /** How many events the groups up to version `v` have. */
  function Upto(gs: seq<CommitGroup>, v: int): nat {
    |Events(gs[..Cut(gs, v)])|
  }

  predicate HasGroup(gs: seq<CommitGroup>, v: int) {
    exists i :: 0 <= i < |gs| && gs[i].version == v
  }

  /** What a reply with watermark `w` adds past position `p`. */
  function ReplyEvents(gs: seq<CommitGroup>, p: int, w: int): seq<Event> {
    (if Cut(gs, p) <= Cut(gs, w) then Events(gs[Cut(gs, p)..Cut(gs, w)]) else [])
    + if HasGroup(gs, w) then [] else [End(w, 0)]
  }

  // ------------------------------------------------------------ basic facts

  lemma {:induction false} EventsAppend(a: seq<CommitGroup>, b: seq<CommitGroup>)
    ensures Events(a + b) == Events(a) + Events(b)
  {
    if a == [] {
      assert a + b == b;
    } else {
      assert (a + b)[1..] == a[1..] + b;
      EventsAppend(a[1..], b);
    }
  }

  lemma {:induction false} CutIs(gs: seq<CommitGroup>, v: int)
    requires Ascending(gs)
    ensures forall i :: 0 <= i < Cut(gs, v) ==> gs[i].version <= v
    ensures forall i :: Cut(gs, v) <= i < |gs| ==> gs[i].version > v
  {
    if gs != [] && gs[0].version <= v {
      CutIs(gs[1..], v);
      forall i | 0 < i < |gs| ensures gs[i] == gs[1..][i - 1] {
      }
    }
  }

  lemma CutMonotone(gs: seq<CommitGroup>, v: int, w: int)
    requires Ascending(gs) && v <= w
    ensures Cut(gs, v) <= Cut(gs, w)
  {
    CutIs(gs, v);
    CutIs(gs, w);
  }

  /** The events up to a version are a prefix of the stream, and those between two versions a slice of it. */
  lemma UptoSlice(gs: seq<CommitGroup>, v: int, w: int)
    requires Ascending(gs) && v <= w
    ensures Upto(gs, v) <= Upto(gs, w) <= |Events(gs)|
    ensures Cut(gs, v) <= Cut(gs, w)
    ensures Events(gs)[..Upto(gs, v)] == Events(gs[..Cut(gs, v)])
    ensures Events(gs)[Upto(gs, v)..Upto(gs, w)] == Events(gs[Cut(gs, v)..Cut(gs, w)])
  {
    CutMonotone(gs, v, w);
    var a, b := Cut(gs, v), Cut(gs, w);
    assert gs == gs[..a] + gs[a..b] + gs[b..] && gs[..b] == gs[..a] + gs[a..b];
    EventsAppend(gs[..a] + gs[a..b], gs[b..]);
    EventsAppend(gs[..a], gs[a..b]);
  }

  lemma {:induction false} EventVersions(gs: seq<CommitGroup>, lo: int)
    requires Ascending(gs) && (gs != [] ==> lo <= gs[0].version)
    ensures forall i :: 0 <= i < |Events(gs)| ==> Events(gs)[i].version >= lo
  {
    if gs != [] {
      if |gs| > 1 {
        assert gs[0].version < gs[1].version;
      }
      EventVersions(gs[1..], lo);
    }
  }

  /** Nothing occurs twice in the stream. */
  lemma {:induction false} EventsDistinct(gs: seq<CommitGroup>)
    requires Ascending(gs)
    ensures forall i, j :: 0 <= i < j < |Events(gs)| ==> Events(gs)[i] != Events(gs)[j]
  {
    if gs != [] {
      var head, tail := GroupEvents(gs[0]), Events(gs[1..]);
      EventsDistinct(gs[1..]);
      EventVersions(gs[1..], gs[0].version + 1);
      assert forall i :: 0 <= i < |head| ==> head[i].version == gs[0].version;
      assert forall i, j :: 0 <= i < j < |head| ==> head[i] != head[j];
    }
  }

  // --------------------------------------------------------------- the log

  /** A version end that closes no group: true once everything up to its version has been logged. */
  predicate Heartbeat(gs: seq<CommitGroup>, n: nat, e: Event) {
    e.End? && e.total == 0 && !HasGroup(gs, e.version) && Upto(gs, e.version) <= n
  }

  /** One more event after the first `n` of the stream have been logged. */
  function Advance(gs: seq<CommitGroup>, n: nat, e: Event): (r: Option<nat>)
    requires n <= |Events(gs)|
    ensures r.Some? ==> n <= r.value <= |Events(gs)|
  {
    var ev := Events(gs);
    if e in ev[..n] then Some(n)
    else if n < |ev| && ev[n] == e then Some(n + 1)
    else if Heartbeat(gs, n, e) then Some(n)
    else None
  }

  /** How far a log that continues after the first `n` events of the stream gets, if it is in order. */
  function Scan(gs: seq<CommitGroup>, n: nat, es: seq<Event>): (r: Option<nat>)
    requires n <= |Events(gs)|
    ensures r.Some? ==> n <= r.value <= |Events(gs)|
    decreases |es|
  {
    if es == [] then Some(n)
    else match Advance(gs, n, es[0])
      case None => None
      case Some(m) => Scan(gs, m, es[1..])
  }

  lemma {:induction false} ScanAppend(gs: seq<CommitGroup>, n: nat, a: seq<Event>, b: seq<Event>)
    requires n <= |Events(gs)|
    ensures Scan(gs, n, a + b) == match Scan(gs, n, a) case None => None case Some(m) => Scan(gs, m, b)
    decreases |a|
  {
    if a == [] {
      assert a + b == b;
    } else {
      assert (a + b)[1..] == a[1..] + b;
      var next := Advance(gs, n, a[0]);
      if next.Some? {
        ScanAppend(gs, next.value, a[1..], b);
      }
    }
  }

  /** A slice of the stream that begins no later than the log has got takes it to the end of the slice. */
  lemma {:induction false} ScanSlice(gs: seq<CommitGroup>, n: nat, a: nat, b: nat)
    requires Ascending(gs) && a <= n <= |Events(gs)| && a <= b <= |Events(gs)|
    ensures Scan(gs, n, Events(gs)[a..b]) == Some(Max(n, b))
    decreases b - a
  {
    var ev := Events(gs);
    if a < b {
      var m := if a < n then n else n + 1;
      assert Advance(gs, n, ev[a]) == Some(m) by {
        EventsDistinct(gs);
        if a < n {
          assert ev[..n][a] == ev[a];
        }
      }
      assert ev[a..b][0] == ev[a] && ev[a..b][1..] == ev[a + 1..b];
      ScanSlice(gs, m, a + 1, b);
    }
  }

  /** Everything up to where the log has got is in the log. */
  lemma {:induction false} ScanCovers(gs: seq<CommitGroup>, n: nat, es: seq<Event>)
    requires n <= |Events(gs)| && Scan(gs, n, es).Some?
    ensures forall i :: n <= i < Scan(gs, n, es).value ==> Events(gs)[i] in es
    decreases |es|
  {
    if es != [] {
      var m := Advance(gs, n, es[0]).value;
      ScanCovers(gs, m, es[1..]);
      forall i | n <= i < Scan(gs, n, es).value ensures Events(gs)[i] in es {
        if i >= m {
          assert Events(gs)[i] in es[1..];
        }
      }
    }
  }

  // ------------------------------------------ what a consumer makes of the log

  predicate SameCoordinate(a: Event, b: Event) {
    a.Mut? && b.Mut? && a.version == b.version && a.sequenceNo == b.sequenceNo
  }

  predicate Seen(kept: seq<Event>, e: Event) {
    exists k :: 0 <= k < |kept| && SameCoordinate(kept[k], e)
  }

  /** The mutations of a log, keeping the first of each (version, sequence_no). */
  function FirstSeen(es: seq<Event>): seq<Event> {
    if es == [] then []
    else
      var kept, e := FirstSeen(es[..|es| - 1]), es[|es| - 1];
      if e.Mut? && !Seen(kept, e) then kept + [e] else kept
  }

  function Mutations(es: seq<Event>): seq<Event> {
    if es == [] then []
    else Mutations(es[..|es| - 1]) + if es[|es| - 1].Mut? then [es[|es| - 1]] else []
  }

  lemma {:induction false} MutationsIn(es: seq<Event>)
    ensures forall e :: e in Mutations(es) <==> e in es && e.Mut?
  {
    if es != [] {
      MutationsIn(es[..|es| - 1]);
      assert es == es[..|es| - 1] + [es[|es| - 1]];
    }
  }

  lemma {:induction false} EventIs(gs: seq<CommitGroup>, i: nat) returns (g: nat)
    requires i < |Events(gs)|
    ensures g < |gs| && Events(gs)[i].version == gs[g].version
    ensures Events(gs)[i].Mut? ==>
      0 <= Events(gs)[i].sequenceNo < |gs[g].mutations|
      && Events(gs)[i].native == gs[g].mutations[Events(gs)[i].sequenceNo]
    ensures Events(gs)[i].End? ==> Events(gs)[i].total == |gs[g].mutations|
  {
    var head := GroupEvents(gs[0]);
    if i < |head| {
      g := 0;
    } else {
      var h := EventIs(gs[1..], i - |head|);
      g := h + 1;
    }
  }

  /** In the stream a coordinate names one mutation. */
  lemma CoordinateIsMutation(gs: seq<CommitGroup>, i: nat, j: nat)
    requires Ascending(gs) && i < |Events(gs)| && j < |Events(gs)|
    requires SameCoordinate(Events(gs)[i], Events(gs)[j])
    ensures Events(gs)[i] == Events(gs)[j]
  {
    var g := EventIs(gs, i);
    var h := EventIs(gs, j);
    assert g == h;
  }

  /** Keeping first occurrences of an accepted log gives the mutations of the stream up to where it got, without gap. */
  lemma {:induction false} FirstSeenIsPrefix(gs: seq<CommitGroup>, es: seq<Event>)
    requires Ascending(gs) && Scan(gs, 0, es).Some?
    ensures FirstSeen(es) == Mutations(Events(gs)[..Scan(gs, 0, es).value])
    decreases |es|
  {
    var ev := Events(gs);
    if es == [] {
      assert ev[..0] == [];
    } else {
      var init, e := es[..|es| - 1], es[|es| - 1];
      assert es == init + [e];
      ScanAppend(gs, 0, init, [e]);
      var n := Scan(gs, 0, init).value;
      ScanOne(gs, n, e);
      FirstSeenIsPrefix(gs, init);
      SeenExactly(gs, n, e);
      if e !in ev[..n] && n < |ev| && ev[n] == e {
        assert ev[..n + 1][..n] == ev[..n] && ev[..n + 1][n] == e;
      }
    }
  }

  lemma ScanOne(gs: seq<CommitGroup>, n: nat, e: Event)
    requires n <= |Events(gs)|
    ensures Scan(gs, n, [e]) == Advance(gs, n, e)
  {
    assert [e][1..] == [];
  }

  /** Among the mutations logged so far, one with the coordinate of a stream event is that event. */
  lemma SeenExactly(gs: seq<CommitGroup>, n: nat, e: Event)
    requires Ascending(gs) && n <= |Events(gs)| && Advance(gs, n, e).Some?
    ensures e.Mut? ==> (Seen(Mutations(Events(gs)[..n]), e) <==> e in Events(gs)[..n])
  {
    var ev := Events(gs);
    var kept := Mutations(ev[..n]);
    MutationsIn(ev[..n]);
    if e.Mut? {
      if e in ev[..n] {
        assert e in kept;
        var k :| 0 <= k < |kept| && kept[k] == e;
        assert SameCoordinate(kept[k], e);
      }
      if Seen(kept, e) && e !in ev[..n] {
        var k :| 0 <= k < |kept| && SameCoordinate(kept[k], e);
        assert kept[k] in ev[..n];
        var i :| 0 <= i < n && ev[i] == kept[k];
        CoordinateIsMutation(gs, i, n);
        assert false;
      }
    }
  }

  /**
   A version end in an accepted log is true: its total is the size of the group at its version (0 if there is none),
   and every mutation up to that version comes before it.
   */
  lemma VersionEndIsTrue(gs: seq<CommitGroup>, before: seq<Event>, e: Event, rest: seq<Event>)
    requires Ascending(gs) && Scan(gs, 0, before + [e] + rest).Some? && e.End?
    ensures forall g :: 0 <= g < |gs| && gs[g].version == e.version ==> e.total == |gs[g].mutations|
    ensures !HasGroup(gs, e.version) ==> e.total == 0
    ensures forall i :: 0 <= i < |Events(gs)| && Events(gs)[i].Mut? && Events(gs)[i].version <= e.version
              ==> Events(gs)[i] in before
  {
    ScanAppend(gs, 0, before + [e], rest);
    ScanAppend(gs, 0, before, [e]);
    var ev, n := Events(gs), Scan(gs, 0, before).value;
    ScanOne(gs, n, e);
    ScanCovers(gs, 0, before);
    if Heartbeat(gs, n, e) && e !in ev[..n] && !(n < |ev| && ev[n] == e) {
      assert forall g :: 0 <= g < |gs| ==> gs[g].version != e.version;
      forall i | 0 <= i < |ev| && ev[i].version <= e.version ensures i < n {
        BeforeCut(gs, i, e.version);
      }
    } else {
      var k := if e in ev[..n] then (var j :| 0 <= j < n && ev[j] == e; j) else n;
      var g := EventIs(gs, k);
      assert forall h :: 0 <= h < |gs| && gs[h].version == e.version ==> h == g;
      forall i | 0 <= i < |ev| && ev[i].Mut? && ev[i].version <= e.version ensures i < k {
        EndIsLast(gs, i, k);
      }
    }
  }

  lemma BeforeCut(gs: seq<CommitGroup>, i: nat, v: int)
    requires Ascending(gs) && i < |Events(gs)| && Events(gs)[i].version <= v
    ensures i < Upto(gs, v)
  {
    hide Events, Cut;
    var n := Upto(gs, v);
    var c := Cut(gs, v);
    CutIs(gs, v);
    assert gs == gs[..c] + gs[c..];
    EventsAppend(gs[..c], gs[c..]);
    EventVersions(gs[c..], v + 1);
    assert forall j :: n <= j < |Events(gs)| ==> Events(gs)[j] == Events(gs[c..])[j - n];
  }

  /** A version end comes after every mutation up to its version. */
  lemma {:induction false} EndIsLast(gs: seq<CommitGroup>, i: nat, k: nat)
    requires Ascending(gs) && i < |Events(gs)| && k < |Events(gs)|
    requires Events(gs)[i].Mut? && Events(gs)[k].End? && Events(gs)[i].version <= Events(gs)[k].version
    ensures i < k
  {
    var head, tail := GroupEvents(gs[0]), Events(gs[1..]);
    EventVersions(gs[1..], gs[0].version + 1);
    if i >= |head| && k >= |head| {
      EndIsLast(gs[1..], i - |head|, k - |head|);
    }
  }

  // ------------------------------------------------------ the shape of a reply

  function Totals(es: seq<Event>): int {
    if es == [] then 0
    else Totals(es[..|es| - 1]) + if es[|es| - 1].End? then es[|es| - 1].total else 0
  }

  function MutationCount(gs: seq<CommitGroup>): nat {
    if gs == [] then 0 else |gs[0].mutations| + MutationCount(gs[1..])
  }

  /** The version ends are in strictly ascending order. */
  predicate EndsAscend(es: seq<Event>) {
    forall i, j :: 0 <= i < j < |es| && es[i].End? && es[j].End? ==> es[i].version < es[j].version
  }

  lemma {:induction false} CountsAppend(a: seq<Event>, b: seq<Event>)
    ensures Totals(a + b) == Totals(a) + Totals(b)
    ensures |Mutations(a + b)| == |Mutations(a)| + |Mutations(b)|
    decreases |b|
  {
    if b == [] {
      assert a + b == a;
    } else {
      CountsAppend(a, b[..|b| - 1]);
      assert (a + b)[..|a + b| - 1] == a + b[..|b| - 1];
    }
  }

  lemma {:induction false} AllMutations(es: seq<Event>)
    requires forall i :: 0 <= i < |es| ==> es[i].Mut?
    ensures Totals(es) == 0 && |Mutations(es)| == |es|
  {
    if es != [] {
      AllMutations(es[..|es| - 1]);
    }
  }

  lemma GroupCounts(g: CommitGroup)
    ensures Totals(GroupEvents(g)) == |g.mutations| == |Mutations(GroupEvents(g))|
  {
    var es, n := GroupEvents(g), |g.mutations|;
    AllMutations(es[..n]);
    assert es[..|es| - 1] == es[..n];
  }

  lemma {:induction false} EventsCount(gs: seq<CommitGroup>)
    ensures Totals(Events(gs)) == MutationCount(gs) == |Mutations(Events(gs))|
  {
    if gs != [] {
      hide Mutations, Totals;
      EventsCount(gs[1..]);
      GroupCounts(gs[0]);
      CountsAppend(GroupEvents(gs[0]), Events(gs[1..]));
    }
  }

  lemma {:induction false} EventsEnd(gs: seq<CommitGroup>)
    requires gs != []
    ensures Events(gs) != []
    ensures var e := Events(gs)[|Events(gs)| - 1]; e.End? && e.version == gs[|gs| - 1].version
  {
    if |gs| > 1 {
      EventsEnd(gs[1..]);
    } else {
      assert Events(gs[1..]) == [];
    }
  }

  lemma {:induction false} EndsOfEvents(gs: seq<CommitGroup>, hi: int)
    requires Ascending(gs) && forall i :: 0 <= i < |gs| ==> gs[i].version <= hi
    ensures EndsAscend(Events(gs))
    ensures forall i :: 0 <= i < |Events(gs)| ==> Events(gs)[i].version <= hi
  {
    if gs != [] {
      EndsOfEvents(gs[1..], hi);
      EventVersions(gs[1..], gs[0].version + 1);
    }
  }

  /**
   A reply is complete version groups: its version ends strictly ascend and the last is that of the watermark, and
   their totals add up to the number of its mutations, which is that of the native reply.
   */
  lemma ReplyShape(gs: seq<CommitGroup>, p: int, w: int)
    requires Ascending(gs) && p < w
    ensures var es := ReplyEvents(gs, p, w);
            && es != [] && es[|es| - 1].End? && es[|es| - 1].version == w
            && EndsAscend(es)
            && Cut(gs, p) <= Cut(gs, w)
            && Totals(es) == |Mutations(es)| == MutationCount(gs[Cut(gs, p)..Cut(gs, w)])
  {
    hide Mutations, Totals, Events, MutationCount, Cut;
    CutMonotone(gs, p, w);
    CutIs(gs, p);
    CutIs(gs, w);
    var part := gs[Cut(gs, p)..Cut(gs, w)];
    EventsCount(part);
    EndsOfEvents(part, w);
    var end := [End(w, 0)];
    CountsAppend(Events(part), end);
    OneEnd(w);
    if HasGroup(gs, w) {
      var i :| 0 <= i < |gs| && gs[i].version == w;
      assert part[i - Cut(gs, p)] == gs[i];
      assert part[|part| - 1].version == w;
      EventsEnd(part);
      assert Events(part) + [] == Events(part);
    } else {
      forall i | 0 <= i < |part| ensures part[i].version < w {
        assert part[i] == gs[Cut(gs, p) + i];
      }
      EndsOfEvents(part, w - 1);
    }
  }

  lemma OneEnd(w: int)
    ensures Totals([End(w, 0)]) == 0 && Mutations([End(w, 0)]) == []
  {
    assert [End(w, 0)][..0] == [];
    assert Totals([]) == 0;
  }
}
