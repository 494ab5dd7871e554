/** `verify_workload`: the loop over consumed records, and what its acceptance means. */
module WorkloadVerifier {
  import opened Prelude
  import opened Messages
  import opened Workload

  datatype Failure =
    | DuplicateCoordinate
    | NotAWorkloadKey
    | UnexpectedIndex
    | WrongMutation
    | DuplicateVersionEnd
    | MissingIndices
    | NoVersionEnd
    | Unreconciled
    | WrongTotal

  // ------------------------------------------------------ reading a mutation

  function VersionOf(m: MutationMsg): nat {
    if m.versionIndex.Some? then m.versionIndex.value.fdbVersion else 0
  }

  function SequenceOf(m: MutationMsg): nat {
    if m.versionIndex.Some? then m.versionIndex.value.sequenceNo else 0
  }

  /** `_native` */
  function NativeOf(m: MutationMsg): (int, bytes, bytes) {
    match m.arm
    case ClearRange(c) => (CLEAR_RANGE, c.beginKey, c.endKey)
    case SingleKey(s) => (s.mutationType, s.key, s.value)
    case NoMutation => (0, [], [])
  }

  predicate SameCoordinate(a: MutationMsg, b: MutationMsg) {
    VersionOf(a) == VersionOf(b) && SequenceOf(a) == SequenceOf(b)
  }

  predicate IsOperation(prefix: bytes, index: nat, m: MutationMsg) {
    var n := NativeOf(m);
    Matches(ExpectedMutation(prefix, index), n.0, n.1, n.2)
  }

  function IndexOf(prefix: bytes, m: MutationMsg): Option<nat> {
    IndexInKey(prefix, NativeOf(m).1)
  }

  // ------------------------------------------------- what acceptance should be

  function MutationsIn(records: seq<RecordMsg>): seq<MutationMsg> {
    if records == [] then [] else MutationsOf(records[0]) + MutationsIn(records[1..])
  }

  function MutationsOf(r: RecordMsg): seq<MutationMsg> {
    match r.arm
    case BatchRecord(b) => b.mutations
    case MutationRecord(m) => [m]
    case _ => []
  }

  function EndsIn(records: seq<RecordMsg>): seq<VersionEndMsg> {
    if records == [] then [] else EndsOf(records[0]) + EndsIn(records[1..])
  }

  function EndsOf(r: RecordMsg): seq<VersionEndMsg> {
    match r.arm
    case VersionEndRecord(e) => [e]
    case _ => []
  }

  /** `set(range(n))` */
  function Range(n: nat): (r: set<nat>)
    ensures |r| == n && forall i: nat :: i in r <==> i < n
  {
    if n == 0 then {} else Range(n - 1) + {n - 1}
  }

  ghost predicate Performed(ms: multiset<MutationMsg>, prefix: bytes, index: nat) {
    exists m :: m in ms && IsOperation(prefix, index, m)
  }

  /** The mutations are the operations 0 to count - 1, each exactly once. */
  ghost predicate Bijection(ms: multiset<MutationMsg>, prefix: bytes, count: int) {
    && |ms| == count
    && (forall m :: m in ms ==> ms[m] == 1 && exists i :: 0 <= i < count && IsOperation(prefix, i, m))
    && (forall i :: 0 <= i < count ==> Performed(ms, prefix, i))
    && (forall i, a, b :: 0 <= i < count && a in ms && b in ms && IsOperation(prefix, i, a) && IsOperation(prefix, i, b)
          ==> a == b)
  }

  ghost predicate UniqueCoordinates(ms: multiset<MutationMsg>) {
    forall a, b :: a in ms && b in ms && SameCoordinate(a, b) ==> a == b && ms[a] == 1
  }

  function SequencesAt(ms: multiset<MutationMsg>, version: nat): set<nat> {
    set m | m in ms && VersionOf(m) == version :: SequenceOf(m)
  }

  ghost predicate HasEnd(ends: multiset<VersionEndMsg>, v: nat) {
    exists e :: e in ends && e.fdbVersion == v
  }

  /** One version end per version, which counts the mutations at positions 0 to total - 1. */
  ghost predicate Reconciled(ms: multiset<MutationMsg>, ends: multiset<VersionEndMsg>) {
    && (forall a, b :: a in ends && b in ends && a.fdbVersion == b.fdbVersion ==> a == b && ends[a] == 1)
    && (forall m :: m in ms ==> HasEnd(ends, VersionOf(m)))
    && (forall e :: e in ends ==> SequencesAt(ms, e.fdbVersion) == Range(e.totalMutations))
  }

  /** The consumed records are exactly the output of the workload. Their order does not matter. */
  ghost predicate ExactOutput(records: seq<RecordMsg>, prefix: bytes, count: int) {
    var ms, ends := multiset(MutationsIn(records)), multiset(EndsIn(records));
    Bijection(ms, prefix, count) && UniqueCoordinates(ms) && Reconciled(ms, ends)
  }

  // -------------------------------------------------------------- the verifier

  /** The dictionaries and sets the loop fills; `totals` keeps insertion order. */
  datatype Tally = Tally(
    seqs: map<nat, set<nat>>, totals: seq<(nat, nat)>, seen: set<nat>, counts: map<int, nat>)

  function SeqsAt(t: Tally, version: nat): set<nat> {
    if version in t.seqs then t.seqs[version] else {}
  }

  predicate HasTotal(t: Tally, version: nat) {
    exists k :: 0 <= k < |t.totals| && t.totals[k].0 == version
  }

  function SumTotals(totals: seq<(nat, nat)>): nat {
    if totals == [] then 0 else totals[0].1 + SumTotals(totals[1..])
  }

  /** The inner function `check` on one mutation. */
  function Check(t: Tally, m: MutationMsg, prefix: bytes, count: int): Result<Tally, Failure> {
    var seqs := SeqsAt(t, VersionOf(m));
    if SequenceOf(m) in seqs then Err(DuplicateCoordinate)
    else
      var n := NativeOf(m);
      match IndexInKey(prefix, n.1)
      case None => Err(NotAWorkloadKey)
      case Some(index) =>
        if index >= count || index in t.seen then Err(UnexpectedIndex)
        else if !Matches(ExpectedMutation(prefix, index), n.0, n.1, n.2) then Err(WrongMutation)
        else Ok(Tally(t.seqs[VersionOf(m) := seqs + {SequenceOf(m)}], t.totals, t.seen + {index},
                      t.counts[n.0 := 1 + if n.0 in t.counts then t.counts[n.0] else 0]))
  }

  // What the tally knows of the mutations checked so far.

  predicate GoodAt(ms: seq<MutationMsg>, prefix: bytes, count: int, k: nat)
    requires k < |ms|
  {
    var index := IndexOf(prefix, ms[k]);
    && index.Some? && index.value < count && IsOperation(prefix, index.value, ms[k])
    && forall j :: 0 <= j < k ==> !SameCoordinate(ms[j], ms[k]) && IndexOf(prefix, ms[j]) != index
  }

  predicate AllGood(ms: seq<MutationMsg>, prefix: bytes, count: int) {
    forall k :: 0 <= k < |ms| ==> GoodAt(ms, prefix, count, k)
  }

  function CountCode(ms: seq<MutationMsg>, code: int): nat {
    if ms == [] then 0
    else CountCode(ms[..|ms| - 1], code) + if NativeOf(ms[|ms| - 1]).0 == code then 1 else 0
  }

  ghost predicate HasCoordinate(ms: seq<MutationMsg>, v: nat, s: nat) {
    exists k :: 0 <= k < |ms| && VersionOf(ms[k]) == v && SequenceOf(ms[k]) == s
  }

  ghost predicate HasVersion(ms: seq<MutationMsg>, v: nat) {
    exists k :: 0 <= k < |ms| && VersionOf(ms[k]) == v
  }

  ghost predicate HasIndex(ms: seq<MutationMsg>, prefix: bytes, i: nat) {
    exists k :: 0 <= k < |ms| && IndexOf(prefix, ms[k]) == Some(i)
  }

  ghost predicate TallyOf(t: Tally, ms: seq<MutationMsg>, prefix: bytes) {
    && (forall v, s :: s in SeqsAt(t, v) <==> HasCoordinate(ms, v, s))
    && (forall v :: v in t.seqs <==> HasVersion(ms, v))
    && (forall i: nat :: i in t.seen <==> HasIndex(ms, prefix, i))
    && |t.seen| == |ms|
    && (forall c :: CountCode(ms, c) == if c in t.counts then t.counts[c] else 0)
    && (forall c :: c in t.counts ==> t.counts[c] > 0)
  }

  lemma CoordinateAppend(ms: seq<MutationMsg>, m: MutationMsg, prefix: bytes)
    ensures forall v: nat, s: nat :: HasCoordinate(ms + [m], v, s) <==>
              HasCoordinate(ms, v, s) || (v == VersionOf(m) && s == SequenceOf(m))
    ensures forall v: nat :: HasVersion(ms + [m], v) <==> HasVersion(ms, v) || v == VersionOf(m)
    ensures forall i: nat :: HasIndex(ms + [m], prefix, i) <==> HasIndex(ms, prefix, i) || IndexOf(prefix, m) == Some(i)
  {
    hide IndexOf;
    var all := ms + [m];
    assert all[|ms|] == m;
    forall v: nat, s: nat | HasCoordinate(ms, v, s) ensures HasCoordinate(all, v, s) {
      var k :| 0 <= k < |ms| && VersionOf(ms[k]) == v && SequenceOf(ms[k]) == s;
      assert all[k] == ms[k];
    }
    forall v: nat | HasVersion(ms, v) ensures HasVersion(all, v) {
      var k :| 0 <= k < |ms| && VersionOf(ms[k]) == v;
      assert all[k] == ms[k];
    }
    forall i: nat | HasIndex(ms, prefix, i) ensures HasIndex(all, prefix, i) {
      var k :| 0 <= k < |ms| && IndexOf(prefix, ms[k]) == Some(i);
      assert all[k] == ms[k];
    }
  }

  lemma GoodAppend(ms: seq<MutationMsg>, m: MutationMsg, prefix: bytes, count: int)
    requires AllGood(ms, prefix, count)
    ensures AllGood(ms + [m], prefix, count) <==> GoodAt(ms + [m], prefix, count, |ms|)
  {
    hide IndexOf, IsOperation;
    var all := ms + [m];
    forall k | 0 <= k < |ms| ensures GoodAt(all, prefix, count, k) {
      assert GoodAt(ms, prefix, count, k);
      assert all[k] == ms[k];
    }
  }

  /** One more mutation passes exactly when it keeps the run good. */
  lemma CheckPasses(t: Tally, ms: seq<MutationMsg>, m: MutationMsg, prefix: bytes, count: int)
    requires AllGood(ms, prefix, count) && TallyOf(t, ms, prefix)
    ensures Check(t, m, prefix, count).Ok? <==> GoodAt(ms + [m], prefix, count, |ms|)
  {
    hide ExpectedMutation, IndexInKey, Matches;
    var all := ms + [m];
    assert all[|ms|] == m && forall j :: 0 <= j < |ms| ==> all[j] == ms[j];
    var index := IndexOf(prefix, m);
    assert SequenceOf(m) in SeqsAt(t, VersionOf(m)) <==> HasCoordinate(ms, VersionOf(m), SequenceOf(m));
    if index.Some? {
      assert index.value in t.seen <==> HasIndex(ms, prefix, index.value);
    }
  }

  lemma CheckTallies(t: Tally, ms: seq<MutationMsg>, m: MutationMsg, prefix: bytes, count: int)
    requires TallyOf(t, ms, prefix) && Check(t, m, prefix, count).Ok?
    ensures TallyOf(Check(t, m, prefix, count).value, ms + [m], prefix)
  {
    hide ExpectedMutation, IndexInKey, Matches, HasCoordinate, HasVersion, HasIndex, CountCode;
    CoordinateAppend(ms, m, prefix);
    forall c ensures CountCode(ms + [m], c) == CountCode(ms, c) + if NativeOf(m).0 == c then 1 else 0 {
      CountAppend(ms, m, c);
    }
  }

  lemma CountAppend(ms: seq<MutationMsg>, m: MutationMsg, code: int)
    ensures CountCode(ms + [m], code) == CountCode(ms, code) + if NativeOf(m).0 == code then 1 else 0
  {
    assert (ms + [m])[..|ms|] == ms;
  }

  // ---------------------------------------------------------------- counting

  lemma {:induction false} SubsetSize<T>(a: set<T>, b: set<T>)
    requires a <= b
    ensures |a| <= |b| && (|a| == |b| ==> a == b)
  {
    if a != {} {
      var x :| x in a;
      SubsetSize(a - {x}, b - {x});
    }
  }

  predicate NoRepeat<T(==)>(s: seq<T>) {
    forall j, k :: 0 <= j < k < |s| ==> s[j] != s[k]
  }

  lemma NoRepeatAppend<T>(init: seq<T>, last: T)
    ensures NoRepeat(init + [last]) <==> NoRepeat(init) && last !in init
  {
    var s := init + [last];
    if NoRepeat(s) {
      forall j, k | 0 <= j < k < |init| ensures init[j] != init[k] {
        assert s[j] == init[j] && s[k] == init[k];
      }
      forall j | 0 <= j < |init| ensures init[j] != last {
        assert s[j] == init[j] && s[|init|] == last;
      }
    }
  }

  /** A sequence repeats nothing exactly when every element has multiplicity one. */
  lemma {:induction false} NoRepeatExactly<T>(s: seq<T>)
    ensures NoRepeat(s) <==> forall x :: x in s ==> multiset(s)[x] == 1
  {
    if s != [] {
      var init, last := s[..|s| - 1], s[|s| - 1];
      assert s == init + [last];
      NoRepeatExactly(init);
      NoRepeatAppend(init, last);
      assert multiset(s) == multiset(init) + multiset{last};
      assert forall x :: x in s <==> x in init || x == last;
      assert last in init <==> multiset(init)[last] > 0;
    }
  }

  lemma MultisetSplit<T>(x: seq<T>, r: T, y: seq<T>)
    ensures multiset(x + [r] + y) == multiset(x + y) + multiset{r}
  {
  }

  lemma MultisetCancel<T>(a: multiset<T>, b: multiset<T>, r: T)
    requires a + multiset{r} == b + multiset{r}
    ensures a == b
  {
    assert a == a + multiset{r} - multiset{r} && b == b + multiset{r} - multiset{r};
  }

  // ------------------------------------------- acceptance and the bijection

  lemma GoodRepeatsNothing(ms: seq<MutationMsg>, prefix: bytes, count: int)
    requires AllGood(ms, prefix, count)
    ensures NoRepeat(ms)
  {
    forall j, k | 0 <= j < k < |ms| ensures ms[j] != ms[k] {
      assert GoodAt(ms, prefix, count, k);
    }
  }

  /** As many indices seen as operations: none is missing, and the keys can tell them apart. */
  lemma SeenIsAll(ms: seq<MutationMsg>, seen: set<nat>, prefix: bytes, count: int)
    requires AllGood(ms, prefix, count)
    requires forall i: nat :: i in seen <==> HasIndex(ms, prefix, i)
    requires |seen| == count
    ensures count <= MAX_COUNT
    ensures forall i: nat :: i < count ==> HasIndex(ms, prefix, i)
  {
    hide AllGood, HasIndex;
    forall i | i in seen ensures i < count && i < MAX_COUNT {
      SeenBound(ms, prefix, count, i);
    }
    SubsetSize(seen, Range(count));
    SubsetSize(seen, Range(MAX_COUNT));
  }

  /** A run that passed every check, with as many indices as operations, is the bijection. */
  lemma GoodIsBijection(ms: seq<MutationMsg>, seen: set<nat>, prefix: bytes, count: int)
    requires AllGood(ms, prefix, count)
    requires forall i: nat :: i in seen <==> HasIndex(ms, prefix, i)
    requires |seen| == |ms| == count
    ensures count <= MAX_COUNT
    ensures Bijection(multiset(ms), prefix, count) && UniqueCoordinates(multiset(ms))
  {
    hide IsOperation, IndexOf, AllGood, NoRepeat;
    GoodRepeatsNothing(ms, prefix, count);
    NoRepeatExactly(ms);
    SeenIsAll(ms, seen, prefix, count);
    var all := multiset(ms);
    forall m | m in all ensures exists i :: 0 <= i < count && IsOperation(prefix, i, m) {
      GoodIsOperation(ms, prefix, count, m);
    }
    forall i | 0 <= i < count ensures Performed(all, prefix, i) {
      SeenIsPerformed(ms, prefix, count, i);
    }
    forall i, a, b | 0 <= i < count && a in all && b in all && IsOperation(prefix, i, a) && IsOperation(prefix, i, b)
      ensures a == b
    {
      OperationIndex(prefix, i, a);
      OperationIndex(prefix, i, b);
      SameIndexSame(ms, prefix, count, a, b);
    }
    forall a, b | a in all && b in all && SameCoordinate(a, b) ensures a == b {
      SameCoordinateSame(ms, prefix, count, a, b);
    }
  }

  lemma GoodIsOperation(ms: seq<MutationMsg>, prefix: bytes, count: int, m: MutationMsg)
    requires AllGood(ms, prefix, count) && m in ms
    ensures exists i :: 0 <= i < count && IsOperation(prefix, i, m)
  {
    hide IsOperation, IndexOf;
    var k :| 0 <= k < |ms| && ms[k] == m;
    assert GoodAt(ms, prefix, count, k);
  }

  lemma SeenIsPerformed(ms: seq<MutationMsg>, prefix: bytes, count: int, i: nat)
    requires AllGood(ms, prefix, count) && HasIndex(ms, prefix, i)
    ensures Performed(multiset(ms), prefix, i)
  {
    hide IsOperation, IndexOf;
    var k :| 0 <= k < |ms| && IndexOf(prefix, ms[k]) == Some(i);
    assert GoodAt(ms, prefix, count, k) && ms[k] in multiset(ms);
  }

  lemma SeenBound(ms: seq<MutationMsg>, prefix: bytes, count: int, i: nat)
    requires AllGood(ms, prefix, count) && HasIndex(ms, prefix, i)
    ensures i < count && i < MAX_COUNT
  {
    var k :| 0 <= k < |ms| && IndexOf(prefix, ms[k]) == Some(i);
    assert GoodAt(ms, prefix, count, k);
    IndexBound(NativeOf(ms[k]).1[|prefix|..]);
  }

  lemma OperationIndex(prefix: bytes, i: nat, m: MutationMsg)
    requires i < MAX_COUNT && IsOperation(prefix, i, m)
    ensures IndexOf(prefix, m) == Some(i)
  {
    var n := NativeOf(m);
    MatchNamesIndex(prefix, i, n.0, n.1, n.2);
  }

  lemma SameIndexSame(ms: seq<MutationMsg>, prefix: bytes, count: int, a: MutationMsg, b: MutationMsg)
    requires AllGood(ms, prefix, count) && a in ms && b in ms && IndexOf(prefix, a) == IndexOf(prefix, b)
    ensures a == b
  {
    hide IsOperation, IndexOf;
    var j, k :| 0 <= j < |ms| && 0 <= k < |ms| && ms[j] == a && ms[k] == b;
    assert GoodAt(ms, prefix, count, j) && GoodAt(ms, prefix, count, k);
  }

  lemma SameCoordinateSame(ms: seq<MutationMsg>, prefix: bytes, count: int, a: MutationMsg, b: MutationMsg)
    requires AllGood(ms, prefix, count) && a in ms && b in ms && SameCoordinate(a, b)
    ensures a == b
  {
    hide IsOperation, IndexOf;
    var j, k :| 0 <= j < |ms| && 0 <= k < |ms| && ms[j] == a && ms[k] == b;
    assert GoodAt(ms, prefix, count, j) && GoodAt(ms, prefix, count, k);
  }

  /** The bijection passes every check, in whatever order its mutations come. */
  lemma {:induction false} BijectionIsGood(ms: seq<MutationMsg>, prefix: bytes, count: int)
    requires count <= MAX_COUNT
    requires Bijection(multiset(ms), prefix, count) && UniqueCoordinates(multiset(ms))
    ensures AllGood(ms, prefix, count) && |ms| == count
  {
    hide IsOperation, IndexOf;
    NoRepeatExactly(ms);
    forall k | 0 <= k < |ms| ensures GoodAt(ms, prefix, count, k) {
      var m := ms[k];
      assert m in multiset(ms);
      var i :| 0 <= i < count && IsOperation(prefix, i, m);
      OperationIndex(prefix, i, m);
      forall j | 0 <= j < k ensures !SameCoordinate(ms[j], m) && IndexOf(prefix, ms[j]) != Some(i) {
        var other := ms[j];
        assert other in multiset(ms) && other != m;
        var i' :| 0 <= i' < count && IsOperation(prefix, i', other);
        OperationIndex(prefix, i', other);
      }
    }
  }

  // ------------------------------------------------- totals and version ends

  predicate DistinctEnds(ends: seq<VersionEndMsg>) {
    forall j, k :: 0 <= j < k < |ends| ==> ends[j].fdbVersion != ends[k].fdbVersion
  }

  predicate TotalsOf(totals: seq<(nat, nat)>, ends: seq<VersionEndMsg>) {
    && |totals| == |ends|
    && forall k :: 0 <= k < |ends| ==> totals[k] == (ends[k].fdbVersion, ends[k].totalMutations)
  }

  /** What the last two loops establish: every version has a total, every total its sequence numbers. */
  predicate TotalsMatch(t: Tally) {
    && (forall v :: v in t.seqs ==> HasTotal(t, v))
    && (forall k :: 0 <= k < |t.totals| ==> SeqsAt(t, t.totals[k].0) == Range(t.totals[k].1))
  }

  lemma SequencesAreTallied(t: Tally, ms: seq<MutationMsg>, prefix: bytes, v: nat)
    requires TallyOf(t, ms, prefix)
    ensures SequencesAt(multiset(ms), v) == SeqsAt(t, v)
  {
    var want, got := SequencesAt(multiset(ms), v), SeqsAt(t, v);
    forall s | s in want ensures s in got {
      var m :| m in multiset(ms) && VersionOf(m) == v && SequenceOf(m) == s;
      var k :| 0 <= k < |ms| && ms[k] == m;
      assert HasCoordinate(ms, v, s);
    }
    forall s | s in got ensures s in want {
      assert HasCoordinate(ms, v, s);
      var k :| 0 <= k < |ms| && VersionOf(ms[k]) == v && SequenceOf(ms[k]) == s;
      assert ms[k] in multiset(ms);
    }
  }

  lemma DistinctEndsExactly(ends: seq<VersionEndMsg>)
    ensures DistinctEnds(ends) <==>
      forall a, b :: a in multiset(ends) && b in multiset(ends) && a.fdbVersion == b.fdbVersion
        ==> a == b && multiset(ends)[a] == 1
  {
    var all := multiset(ends);
    NoRepeatExactly(ends);
    if DistinctEnds(ends) {
      assert NoRepeat(ends);
      forall a, b | a in all && b in all && a.fdbVersion == b.fdbVersion ensures a == b && all[a] == 1 {
        var j, k :| 0 <= j < |ends| && 0 <= k < |ends| && ends[j] == a && ends[k] == b;
      }
    } else {
      var j, k :| 0 <= j < k < |ends| && ends[j].fdbVersion == ends[k].fdbVersion;
      var a, b := ends[j], ends[k];
      assert a in all && b in all;
      if forall x :: x in ends ==> all[x] == 1 {
        assert a != b;
      } else {
        var x :| x in ends && all[x] != 1;
        assert x in all;
      }
    }
  }

  lemma HasTotalExactly(t: Tally, ends: seq<VersionEndMsg>, v: nat)
    requires TotalsOf(t.totals, ends)
    ensures HasTotal(t, v) <==> HasEnd(multiset(ends), v)
  {
    if HasTotal(t, v) {
      var k :| 0 <= k < |t.totals| && t.totals[k].0 == v;
      assert ends[k] in multiset(ends);
    }
    if e :| e in multiset(ends) && e.fdbVersion == v {
      var k :| 0 <= k < |ends| && ends[k] == e;
      assert t.totals[k].0 == v;
    }
  }

  lemma EveryVersionEnds(t: Tally, ms: seq<MutationMsg>, ends: seq<VersionEndMsg>, prefix: bytes)
    requires TallyOf(t, ms, prefix) && TotalsOf(t.totals, ends)
    ensures (forall v :: v in t.seqs ==> HasTotal(t, v)) <==>
            (forall m :: m in multiset(ms) ==> HasEnd(multiset(ends), VersionOf(m)))
  {
    hide HasTotal, TotalsOf, TallyOf;
    forall v: nat ensures HasTotal(t, v) <==> HasEnd(multiset(ends), v) {
      HasTotalExactly(t, ends, v);
    }
    VersionsAreTallied(t, ms, prefix);
  }

  lemma EveryTotalReconciles(t: Tally, ms: seq<MutationMsg>, ends: seq<VersionEndMsg>, prefix: bytes)
    requires TallyOf(t, ms, prefix) && TotalsOf(t.totals, ends)
    ensures (forall k :: 0 <= k < |t.totals| ==> SeqsAt(t, t.totals[k].0) == Range(t.totals[k].1)) <==>
            (forall e :: e in multiset(ends) ==> SequencesAt(multiset(ms), e.fdbVersion) == Range(e.totalMutations))
  {
    hide SeqsAt, SequencesAt, TallyOf;
    forall v: nat ensures SequencesAt(multiset(ms), v) == SeqsAt(t, v) {
      SequencesAreTallied(t, ms, prefix, v);
    }
    assert forall e :: e in multiset(ends) <==> e in ends;
    assert forall k :: 0 <= k < |ends| ==> ends[k] in ends;
  }

  /** The loops at the end decide exactly whether the version ends reconcile. */
  lemma ReconciledExactly(t: Tally, ms: seq<MutationMsg>, ends: seq<VersionEndMsg>, prefix: bytes)
    requires TallyOf(t, ms, prefix) && TotalsOf(t.totals, ends)
    ensures DistinctEnds(ends) && TotalsMatch(t) <==> Reconciled(multiset(ms), multiset(ends))
  {
    hide HasTotal, SeqsAt, SequencesAt, DistinctEnds, TallyOf, TotalsOf;
    DistinctEndsExactly(ends);
    EveryVersionEnds(t, ms, ends, prefix);
    EveryTotalReconciles(t, ms, ends, prefix);
  }

  lemma VersionsAreTallied(t: Tally, ms: seq<MutationMsg>, prefix: bytes)
    requires TallyOf(t, ms, prefix)
    ensures forall m :: m in multiset(ms) ==> VersionOf(m) in t.seqs
    ensures forall v :: v in t.seqs ==> exists m :: m in multiset(ms) && VersionOf(m) == v
  {
    forall m | m in multiset(ms) ensures VersionOf(m) in t.seqs {
      var k :| 0 <= k < |ms| && ms[k] == m;
      assert HasVersion(ms, VersionOf(m));
    }
    forall v | v in t.seqs ensures exists m :: m in multiset(ms) && VersionOf(m) == v {
      assert HasVersion(ms, v);
      var k :| 0 <= k < |ms| && VersionOf(ms[k]) == v;
      assert ms[k] in multiset(ms);
    }
  }

  // ------------------------------------------- the totals add up by themselves

  function CountVersion(ms: seq<MutationMsg>, v: nat): nat {
    if ms == [] then 0
    else CountVersion(ms[..|ms| - 1], v) + if VersionOf(ms[|ms| - 1]) == v then 1 else 0
  }

  function CountVersions(ms: seq<MutationMsg>, vs: seq<nat>): nat {
    if vs == [] then 0 else CountVersion(ms, vs[0]) + CountVersions(ms, vs[1..])
  }

  lemma {:induction false} OneMore(ms: seq<MutationMsg>, m: MutationMsg, vs: seq<nat>)
    requires NoRepeat(vs)
    ensures CountVersions(ms + [m], vs) == CountVersions(ms, vs) + if VersionOf(m) in vs then 1 else 0
  {
    if vs != [] {
      var all := ms + [m];
      assert all[..|all| - 1] == ms;
      assert NoRepeat(vs[1..]);
      OneMore(ms, m, vs[1..]);
      if VersionOf(m) == vs[0] {
        assert VersionOf(m) !in vs[1..];
      } else {
        assert VersionOf(m) in vs <==> VersionOf(m) in vs[1..];
      }
    }
  }

  /** Counted by version, with every version listed once, the mutations are all counted. */
  lemma {:induction false} VersionsCountAll(ms: seq<MutationMsg>, vs: seq<nat>)
    requires NoRepeat(vs) && forall k :: 0 <= k < |ms| ==> VersionOf(ms[k]) in vs
    ensures CountVersions(ms, vs) == |ms|
  {
    if ms == [] {
      NothingCounted(vs);
    } else {
      var init, last := ms[..|ms| - 1], ms[|ms| - 1];
      VersionsCountAll(init, vs);
      assert ms == init + [last];
      OneMore(init, last, vs);
    }
  }

  lemma {:induction false} NothingCounted(vs: seq<nat>)
    ensures CountVersions([], vs) == 0
  {
    if vs != [] {
      NothingCounted(vs[1..]);
    }
  }

  predicate DistinctCoordinates(ms: seq<MutationMsg>) {
    forall j, k :: 0 <= j < k < |ms| ==> !SameCoordinate(ms[j], ms[k])
  }

  function SequenceSet(ms: seq<MutationMsg>, v: nat): set<nat> {
    if ms == [] then {}
    else SequenceSet(ms[..|ms| - 1], v) + if VersionOf(ms[|ms| - 1]) == v then {SequenceOf(ms[|ms| - 1])} else {}
  }

  lemma {:induction false} SequenceSetIs(ms: seq<MutationMsg>, v: nat)
    ensures forall s: nat :: s in SequenceSet(ms, v) <==> HasCoordinate(ms, v, s)
    ensures DistinctCoordinates(ms) ==> |SequenceSet(ms, v)| == CountVersion(ms, v)
  {
    if ms != [] {
      var init, last := ms[..|ms| - 1], ms[|ms| - 1];
      assert ms == init + [last];
      SequenceSetIs(init, v);
      CoordinateAppend(init, last, []);
      if DistinctCoordinates(ms) && VersionOf(last) == v {
        assert !HasCoordinate(init, v, SequenceOf(last));
      }
    }
  }

  function VersionsOf(totals: seq<(nat, nat)>): (r: seq<nat>)
    ensures |r| == |totals| && forall k :: 0 <= k < |r| ==> r[k] == totals[k].0
  {
    seq(|totals|, k requires 0 <= k < |totals| => totals[k].0)
  }

  lemma {:induction false} TotalsAreCounts(ms: seq<MutationMsg>, totals: seq<(nat, nat)>)
    requires forall k :: 0 <= k < |totals| ==> CountVersion(ms, totals[k].0) == totals[k].1
    ensures SumTotals(totals) == CountVersions(ms, VersionsOf(totals))
  {
    if totals != [] {
      TotalsAreCounts(ms, totals[1..]);
      assert VersionsOf(totals)[1..] == VersionsOf(totals[1..]);
    }
  }

  /** The check that the totals sum to `count` is implied by the ones before it. */
  lemma TotalsAddUp(t: Tally, ms: seq<MutationMsg>, ends: seq<VersionEndMsg>, prefix: bytes, count: int)
    requires AllGood(ms, prefix, count) && TallyOf(t, ms, prefix)
    requires TotalsOf(t.totals, ends) && DistinctEnds(ends) && TotalsMatch(t)
    ensures SumTotals(t.totals) == |ms|
  {
    var vs := VersionsOf(t.totals);
    CoordinatesAreDistinct(ms, prefix, count);
    forall k | 0 <= k < |t.totals| ensures CountVersion(ms, t.totals[k].0) == t.totals[k].1 {
      SequenceSetIs(ms, t.totals[k].0);
      assert SequenceSet(ms, t.totals[k].0) == SeqsAt(t, t.totals[k].0);
    }
    TotalsAreCounts(ms, t.totals);
    forall k | 0 <= k < |ms| ensures VersionOf(ms[k]) in vs {
      assert HasVersion(ms, VersionOf(ms[k]));
      assert HasTotal(t, VersionOf(ms[k]));
      var j :| 0 <= j < |t.totals| && t.totals[j].0 == VersionOf(ms[k]);
      assert vs[j] == VersionOf(ms[k]);
    }
    VersionsCountAll(ms, vs);
  }

  lemma CoordinatesAreDistinct(ms: seq<MutationMsg>, prefix: bytes, count: int)
    requires AllGood(ms, prefix, count)
    ensures DistinctCoordinates(ms)
  {
    hide IsOperation, IndexOf;
    forall j, k | 0 <= j < k < |ms| ensures !SameCoordinate(ms[j], ms[k]) {
      assert GoodAt(ms, prefix, count, k);
    }
  }

  // ------------------------------------------------------------ the procedure

  lemma {:induction false} MutationsAppend(a: seq<RecordMsg>, r: RecordMsg)
    ensures MutationsIn(a + [r]) == MutationsIn(a) + MutationsOf(r)
    ensures EndsIn(a + [r]) == EndsIn(a) + EndsOf(r)
  {
    hide MutationsOf, EndsOf;
    if a == [] {
      assert a + [r] == [r] && [r][1..] == [];
    } else {
      assert (a + [r])[1..] == a[1..] + [r];
      MutationsAppend(a[1..], r);
    }
  }

  lemma {:induction false} MutationsSplit(a: seq<RecordMsg>, b: seq<RecordMsg>)
    ensures MutationsIn(a + b) == MutationsIn(a) + MutationsIn(b)
    ensures EndsIn(a + b) == EndsIn(a) + EndsIn(b)
  {
    hide MutationsOf, EndsOf;
    if a == [] {
      assert a + b == b;
    } else {
      assert (a + b)[1..] == a[1..] + b;
      MutationsSplit(a[1..], b);
    }
  }

  lemma GoodPrefix(ms: seq<MutationMsg>, rest: seq<MutationMsg>, prefix: bytes, count: int)
    requires AllGood(ms + rest, prefix, count)
    ensures AllGood(ms, prefix, count)
  {
    hide IsOperation, IndexOf;
    var all := ms + rest;
    forall k | 0 <= k < |ms| ensures GoodAt(ms, prefix, count, k) {
      assert GoodAt(all, prefix, count, k);
      assert forall j :: 0 <= j <= k ==> all[j] == ms[j];
    }
  }

  method CheckAll(tally: Tally, ms: seq<MutationMsg>, prefix: bytes, count: int, ghost before: seq<MutationMsg>)
    returns (r: Result<Tally, Failure>)
    requires AllGood(before, prefix, count) && TallyOf(tally, before, prefix)
    ensures r.Ok? <==> AllGood(before + ms, prefix, count)
    ensures r.Ok? ==> TallyOf(r.value, before + ms, prefix) && r.value.totals == tally.totals
    ensures r.Err? ==> r.error != WrongTotal
  {
    hide AllGood, TallyOf, GoodAt;
    var t := tally;
    assert before + [] == before;
    for i := 0 to |ms|
      invariant AllGood(before + ms[..i], prefix, count) && TallyOf(t, before + ms[..i], prefix)
      invariant t.totals == tally.totals
    {
      ghost var done := before + ms[..i];
      assert done + [ms[i]] == before + ms[..i + 1];
      CheckPasses(t, done, ms[i], prefix, count);
      GoodAppend(done, ms[i], prefix, count);
      var next := Check(t, ms[i], prefix, count);
      if next.Err? {
        if AllGood(before + ms, prefix, count) {
          assert before + ms == done + [ms[i]] + ms[i + 1..];
          GoodPrefix(done + [ms[i]], ms[i + 1..], prefix, count);
        }
        return Err(next.error);
      }
      CheckTallies(t, done, ms[i], prefix, count);
      t := next.value;
    }
    assert before + ms[..|ms|] == before + ms;
    return Ok(t);
  }

  /** What a record adds to the good run and to the distinct version ends. */
  ghost predicate Consumed(t: Tally, records: seq<RecordMsg>, prefix: bytes, count: int) {
    && AllGood(MutationsIn(records), prefix, count) && TallyOf(t, MutationsIn(records), prefix)
    && TotalsOf(t.totals, EndsIn(records)) && DistinctEnds(EndsIn(records))
  }

  method ConsumeRecord(tally: Tally, rec: RecordMsg, prefix: bytes, count: int, ghost before: seq<RecordMsg>)
    returns (r: Result<Tally, Failure>)
    requires Consumed(tally, before, prefix, count)
    ensures r.Ok? ==> Consumed(r.value, before + [rec], prefix, count)
    ensures r.Err? ==> r.error != WrongTotal
    ensures r.Err? ==>
      !AllGood(MutationsIn(before + [rec]), prefix, count) || !DistinctEnds(EndsIn(before + [rec]))
  {
    hide AllGood, TallyOf, TotalsOf, DistinctEnds, MutationsIn, EndsIn;
    MutationsAppend(before, rec);
    assert EndsIn(before) + [] == EndsIn(before) && MutationsIn(before) + [] == MutationsIn(before);
    match rec.arm {
      case BatchRecord(b) => r := CheckAll(tally, b.mutations, prefix, count, MutationsIn(before));
      case MutationRecord(m) => r := CheckAll(tally, [m], prefix, count, MutationsIn(before));
      case VersionEndRecord(e) =>
        r := ConsumeEnd(tally, e, EndsIn(before));
        if r.Ok? {
          TallyIgnoresTotals(tally, r.value.totals, MutationsIn(before), prefix);
        }
      case NoRecord => r := Ok(tally);
    }
  }

  method ConsumeEnd(tally: Tally, e: VersionEndMsg, ghost ends: seq<VersionEndMsg>) returns (r: Result<Tally, Failure>)
    requires TotalsOf(tally.totals, ends) && DistinctEnds(ends)
    ensures r.Ok? ==> r.value == tally.(totals := r.value.totals)
    ensures r.Ok? ==> TotalsOf(r.value.totals, ends + [e]) && DistinctEnds(ends + [e])
    ensures r.Err? ==> r.error != WrongTotal && !DistinctEnds(ends + [e])
  {
    if HasTotal(tally, e.fdbVersion) {
      ghost var k :| 0 <= k < |tally.totals| && tally.totals[k].0 == e.fdbVersion;
      assert (ends + [e])[k].fdbVersion == (ends + [e])[|ends|].fdbVersion;
      return Err(DuplicateVersionEnd);
    }
    forall k | 0 <= k < |ends| ensures ends[k].fdbVersion != e.fdbVersion {
      assert tally.totals[k].0 == ends[k].fdbVersion;
    }
    r := Ok(tally.(totals := tally.totals + [(e.fdbVersion, e.totalMutations)]));
  }

  lemma TallyIgnoresTotals(t: Tally, totals: seq<(nat, nat)>, ms: seq<MutationMsg>, prefix: bytes)
    requires TallyOf(t, ms, prefix)
    ensures TallyOf(t.(totals := totals), ms, prefix)
  {
    var u := t.(totals := totals);
    assert forall v :: SeqsAt(u, v) == SeqsAt(t, v);
  }

  lemma DistinctPrefix(a: seq<VersionEndMsg>, b: seq<VersionEndMsg>)
    requires DistinctEnds(a + b)
    ensures DistinctEnds(a)
  {
    forall j, k | 0 <= j < k < |a| ensures a[j].fdbVersion != a[k].fdbVersion {
      assert (a + b)[j] == a[j] && (a + b)[k] == a[k];
    }
  }

  /** A failure in the middle of the records rules out the exact output, whatever follows. */
  lemma FailureIsFinal(records: seq<RecordMsg>, i: nat, prefix: bytes, count: int)
    requires i <= |records|
    requires !AllGood(MutationsIn(records[..i]), prefix, count) || !DistinctEnds(EndsIn(records[..i]))
    ensures !(count <= MAX_COUNT && ExactOutput(records, prefix, count))
  {
    hide AllGood, DistinctEnds;
    assert records == records[..i] + records[i..];
    MutationsSplit(records[..i], records[i..]);
    if count <= MAX_COUNT && ExactOutput(records, prefix, count) {
      BijectionIsGood(MutationsIn(records), prefix, count);
      DistinctEndsExactly(EndsIn(records));
      GoodPrefix(MutationsIn(records[..i]), MutationsIn(records[i..]), prefix, count);
      DistinctPrefix(EndsIn(records[..i]), EndsIn(records[i..]));
    }
  }

  /** Everything the checks after the loop decide. */
  lemma FinalChecks(t: Tally, records: seq<RecordMsg>, prefix: bytes, count: int)
    requires Consumed(t, records, prefix, count)
    ensures |t.seen| == count && TotalsMatch(t) <==> count <= MAX_COUNT && ExactOutput(records, prefix, count)
    ensures |t.seen| == count && TotalsMatch(t) ==> SumTotals(t.totals) == count
  {
    var ms, ends := MutationsIn(records), EndsIn(records);
    SeenIsCounted(t, ms, prefix);
    hide AllGood, TallyOf, TotalsMatch, DistinctEnds, Bijection, UniqueCoordinates, Reconciled, TotalsOf;
    ReconciledExactly(t, ms, ends, prefix);
    if |t.seen| == count {
      GoodIsBijection(ms, t.seen, prefix, count);
      if TotalsMatch(t) {
        TotalsAddUp(t, ms, ends, prefix, count);
      }
    } else if count <= MAX_COUNT && ExactOutput(records, prefix, count) {
      BijectionIsGood(ms, prefix, count);
    }
  }

  lemma SeenIsCounted(t: Tally, ms: seq<MutationMsg>, prefix: bytes)
    requires TallyOf(t, ms, prefix)
    ensures |t.seen| == |ms| && forall i: nat :: i in t.seen <==> HasIndex(ms, prefix, i)
  {
  }

  lemma NothingConsumed(prefix: bytes, count: int)
    ensures Consumed(Tally(map[], [], {}, map[]), [], prefix, count)
  {
  }

  /** The first loop: every record in turn. */
  method ConsumeAll(records: seq<RecordMsg>, prefix: bytes, count: int) returns (r: Result<Tally, Failure>)
    ensures r.Ok? ==> Consumed(r.value, records, prefix, count)
    ensures r.Err? ==> r.error != WrongTotal && !(count <= MAX_COUNT && ExactOutput(records, prefix, count))
  {
    hide AllGood, TallyOf, DistinctEnds, TotalsOf, Reconciled, ExactOutput, Consumed;
    var t := Tally(map[], [], {}, map[]);
    NothingConsumed(prefix, count);
    for i := 0 to |records|
      invariant Consumed(t, records[..i], prefix, count)
    {
      assert records[..i] + [records[i]] == records[..i + 1];
      var next := ConsumeRecord(t, records[i], prefix, count, records[..i]);
      if next.Err? {
        FailureIsFinal(records, i + 1, prefix, count);
        return Err(next.error);
      }
      t := next.value;
    }
    assert records[..|records|] == records;
    return Ok(t);
  }

  /** The last two loops. */
  method CheckTotals(t: Tally) returns (failure: Option<Failure>)
    ensures failure.None? <==> TotalsMatch(t)
    ensures failure != Some(WrongTotal)
  {
    hide HasTotal, SeqsAt;
    if exists v :: v in t.seqs && !HasTotal(t, v) {
      return Some(NoVersionEnd);
    }
    for k := 0 to |t.totals|
      invariant forall j :: 0 <= j < k ==> SeqsAt(t, t.totals[j].0) == Range(t.totals[j].1)
    {
      if SeqsAt(t, t.totals[k].0) != Range(t.totals[k].1) {
        return Some(Unreconciled);
      }
    }
    return None;
  }

  method VerifyWorkload(records: seq<RecordMsg>, prefix: bytes, count: int) returns (r: Result<map<int, nat>, Failure>)
    ensures r.Ok? <==> count <= MAX_COUNT && ExactOutput(records, prefix, count)
    ensures r.Ok? ==> forall code ::
      CountCode(MutationsIn(records), code) == if code in r.value then r.value[code] else 0
    ensures r != Err(WrongTotal)
  {
    hide ExactOutput, Consumed, TotalsMatch, CountCode, MutationsIn;
    var consumed := ConsumeAll(records, prefix, count);
    if consumed.Err? {
      return Err(consumed.error);
    }
    var t := consumed.value;
    FinalChecks(t, records, prefix, count);
    TypeCounts(t, records, prefix, count);
    if |t.seen| != count {
      return Err(MissingIndices);
    }
    var failure := CheckTotals(t);
    if failure.Some? {
      return Err(failure.value);
    }
    if SumTotals(t.totals) != count {
      return Err(WrongTotal);
    }
    return Ok(t.counts);
  }

  lemma TypeCounts(t: Tally, records: seq<RecordMsg>, prefix: bytes, count: int)
    requires Consumed(t, records, prefix, count)
    ensures forall c :: CountCode(MutationsIn(records), c) == if c in t.counts then t.counts[c] else 0
  {
  }

  // ------------------------------------------------------------------- order

  /** A record can be moved to the front. */
  lemma MoveToFront(a: seq<RecordMsg>, r: RecordMsg, b: seq<RecordMsg>)
    ensures multiset(MutationsIn(a + [r] + b)) == multiset(MutationsOf(r)) + multiset(MutationsIn(a + b))
    ensures multiset(EndsIn(a + [r] + b)) == multiset(EndsOf(r)) + multiset(EndsIn(a + b))
  {
    hide MutationsIn, MutationsOf, EndsIn, EndsOf;
    MutationsSplit(a + [r], b);
    MutationsAppend(a, r);
    MutationsSplit(a, b);
  }

  function Without(b: seq<RecordMsg>, k: nat): (r: seq<RecordMsg>)
    requires k < |b|
    ensures |r| == |b| - 1
  {
    b[..k] + b[k + 1..]
  }

  lemma SplitAt(b: seq<RecordMsg>, k: nat)
    requires k < |b|
    ensures b[..k] + [b[k]] + b[k + 1..] == b
  {
  }

  lemma WithoutOne(b: seq<RecordMsg>, k: nat)
    requires k < |b|
    ensures multiset(b) == multiset(Without(b, k)) + multiset{b[k]}
    ensures multiset(MutationsIn(b)) == multiset(MutationsOf(b[k])) + multiset(MutationsIn(Without(b, k)))
    ensures multiset(EndsIn(b)) == multiset(EndsOf(b[k])) + multiset(EndsIn(Without(b, k)))
  {
    hide MutationsIn, MutationsOf, EndsIn, EndsOf;
    var x, r, y := b[..k], b[k], b[k + 1..];
    MultisetSplit(x, r, y);
    MoveToFront(x, r, y);
    SplitAt(b, k);
  }

  lemma {:induction false} SameMultisets(a: seq<RecordMsg>, b: seq<RecordMsg>)
    requires multiset(a) == multiset(b)
    ensures multiset(MutationsIn(a)) == multiset(MutationsIn(b))
    ensures multiset(EndsIn(a)) == multiset(EndsIn(b))
    decreases |a|
  {
    hide MutationsIn, MutationsOf, EndsIn, EndsOf, Without;
    assert |multiset(a)| == |a| && |multiset(b)| == |b|;
    if a == [] {
      assert b == [];
    } else {
      assert a[0] in multiset(b);
      var k :| 0 <= k < |b| && b[k] == a[0];
      WithoutOne(a, 0);
      WithoutOne(b, k);
      MultisetCancel(multiset(Without(a, 0)), multiset(Without(b, k)), a[0]);
      SameMultisets(Without(a, 0), Without(b, k));
    }
  }

  /** The verdict does not depend on the order of the records. */
  lemma OrderDoesNotMatter(a: seq<RecordMsg>, b: seq<RecordMsg>, prefix: bytes, count: int)
    requires multiset(a) == multiset(b)
    ensures ExactOutput(a, prefix, count) == ExactOutput(b, prefix, count)
  {
    SameMultisets(a, b);
  }
}
