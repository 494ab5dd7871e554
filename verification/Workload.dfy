/** The demo's whole-stream checker: the expected output of the workload, and the verifier of consumed records. */
module Workload {
  import opened Prelude
  import opened Messages

  const VERSIONSTAMP_LEN := 10
  const SET_VALUE := 0
  const CLEAR_RANGE := 1
  const INDEX_DIGITS := 8
  /** The keys of the workload tell apart this many operations. */
  const MAX_COUNT := 100_000_000

  // ------------------------------------------------------------------- text

  function Ascii(s: string): (r: bytes)
    requires forall i :: 0 <= i < |s| ==> s[i] < 128 as char
    ensures |r| == |s| && forall i :: 0 <= i < |s| ==> r[i] == s[i] as int
  {
    seq(|s|, i requires 0 <= i < |s| => s[i] as int)
  }

  predicate IsDigit(b: byte) {
    48 <= b <= 57
  }

  /** `[a-z_]` */
  predicate IsTagByte(b: byte) {
    97 <= b <= 122 || b == 95
  }

  predicate IsTag(t: bytes) {
    t != [] && forall i :: 0 <= i < |t| ==> IsTagByte(t[i])
  }

  predicate AllDigits(b: bytes) {
    forall i :: 0 <= i < |b| ==> IsDigit(b[i])
  }

  function Decimal(n: nat): (r: bytes)
    ensures r != [] && AllDigits(r)
  {
    if n < 10 then [48 + n] else Decimal(n / 10) + [48 + n % 10]
  }

  function Zeros(n: nat): (r: bytes)
    ensures |r| == n && AllDigits(r)
  {
    if n == 0 then [] else Zeros(n - 1) + [48]
  }

  /** `f"{index:08d}"` */
  function Padded(index: nat): (r: bytes)
    ensures AllDigits(r)
  {
    var d := Decimal(index);
    if |d| < INDEX_DIGITS then Zeros(INDEX_DIGITS - |d|) + d else d
  }

  /** `int(...)` of a run of digits. */
  function Value(d: bytes): (n: nat)
    requires AllDigits(d)
  {
    if d == [] then 0 else 10 * Value(d[..|d| - 1]) + (d[|d| - 1] - 48)
  }

  function LittleEndian(n: nat, size: nat): (r: bytes)
    ensures |r| == size
  {
    if size == 0 then [] else [n % 256] + LittleEndian(n / 256, size - 1)
  }

  /** The index found by `[a-z_]+?(\d{8})` at the start of `b`. */
  function MatchIndex(b: bytes): Option<nat> {
    if b == [] || !IsTagByte(b[0]) then None
    else if |b| >= 1 + INDEX_DIGITS && AllDigits(b[1..1 + INDEX_DIGITS]) then Some(Value(b[1..1 + INDEX_DIGITS]))
    else MatchIndex(b[1..])
  }

  function IndexInKey(prefix: bytes, key: bytes): Option<nat> {
    if prefix <= key then MatchIndex(key[|prefix|..]) else None
  }

  // --------------------------------------------------------------- expected

  /** `stamp` is the param (1 or 2) and offset of a versionstamp whose bytes are not known beforehand. */
  datatype Expected = Expected(code: int, param1: bytes, param2: bytes, stamp: Option<(nat, nat)>)

  function ZeroStamp(): bytes {
    seq(VERSIONSTAMP_LEN, _ => 0)
  }

  function ExpectedMutation(prefix: bytes, index: nat): Expected {
    var mod, idx := index % 14, Padded(index);
    var le8 := LittleEndian(index % 0x1_0000_0000, 8);
    if mod == 0 then Expected(SET_VALUE, prefix + Ascii("set_") + idx, Ascii("val-") + Decimal(index), None)
    else if mod == 1 then
      var clr := prefix + Ascii("clr_") + idx;
      Expected(CLEAR_RANGE, clr + Ascii("/a"), clr + Ascii("/z"), None)
    else if mod == 9 then
      var key := prefix + Ascii("vsk_") + idx;
      Expected(SET_VALUE, key + ZeroStamp(), Ascii("vsk_payload"), Some((1, |key|)))
    else if mod == 10 then
      var val := Ascii("vsv_") + idx;
      Expected(SET_VALUE, prefix + Ascii("vsv_") + idx, val + ZeroStamp(), Some((2, |val|)))
    else if mod == 13 then Expected(SET_VALUE, prefix + Ascii("set_b_") + idx, Ascii("val-b-") + Decimal(index), None)
    else
      var op := Operand(mod, le8);
      Expected(op.0, prefix + op.1 + idx, op.2, None)
  }

  function Operand(mod: nat, le8: bytes): (r: (int, bytes, bytes))
    ensures IsTag(r.1)
  {
    if mod == 2 then (2, Ascii("add_"), le8)
    else if mod == 3 then (19, Ascii("and_"), [0x0F])
    else if mod == 4 then (7, Ascii("or_"), [0xF0])
    else if mod == 5 then (8, Ascii("xor_"), [0xAA])
    else if mod == 6 then (9, Ascii("app_"), Ascii("chunk"))
    else if mod == 7 then (12, Ascii("max_"), le8)
    else if mod == 8 then (18, Ascii("min_"), le8)
    else if mod == 11 then (16, Ascii("bmin_"), [0x10])
    else (17, Ascii("bmax_"), [0xFE])
  }

  /** Equal but for the stamp bytes, which must be as many. */
  predicate StampedEqual(got: bytes, want: bytes, offset: nat) {
    && |got| == |want|
    && (if offset <= |got| then got[..offset] == want[..offset] else got == want)
    && (offset + VERSIONSTAMP_LEN <= |got| ==> got[offset + VERSIONSTAMP_LEN..] == want[offset + VERSIONSTAMP_LEN..])
  }

  /** `ExpectedMutation.matches` */
  predicate Matches(e: Expected, code: int, param1: bytes, param2: bytes) {
    && code == e.code
    && match e.stamp
       case None => param1 == e.param1 && param2 == e.param2
       case Some((which, offset)) =>
         if which == 1 then StampedEqual(param1, e.param1, offset) && param2 == e.param2
         else StampedEqual(param2, e.param2, offset) && param1 == e.param1
  }

  // ---------------------------------------------------- keys name their index

  lemma {:induction false} DecimalValue(n: nat)
    ensures Value(Decimal(n)) == n
    ensures forall k: nat :: n < Power10(k) && k > 0 ==> |Decimal(n)| <= k
  {
    if n >= 10 {
      DecimalValue(n / 10);
      var d := Decimal(n);
      assert d[..|d| - 1] == Decimal(n / 10);
      forall k: nat | n < Power10(k) && k > 0 ensures |d| <= k {
        assert k > 1 && n / 10 < Power10(k - 1);
        assert |Decimal(n / 10)| <= k - 1;
      }
    } else {
      assert [48 + n][..0] == [];
    }
  }

  function Power10(k: nat): nat {
    if k == 0 then 1 else 10 * Power10(k - 1)
  }

  lemma {:induction false} ZerosValue(n: nat, d: bytes)
    requires AllDigits(d)
    ensures Value(Zeros(n) + d) == Value(d)
    decreases |d|, n
  {
    if d != [] {
      var e := d[..|d| - 1];
      assert (Zeros(n) + d)[..n + |d| - 1] == Zeros(n) + e;
      ZerosValue(n, e);
    } else if n > 0 {
      assert Zeros(n) + d == Zeros(n);
      assert Zeros(n)[..n - 1] == Zeros(n - 1) + [];
      ZerosValue(n - 1, []);
    }
  }

  /** Below 10^8 the padded index has exactly eight digits and reads back. */
  lemma PaddedReads(index: nat)
    requires index < MAX_COUNT
    ensures |Padded(index)| == INDEX_DIGITS && Value(Padded(index)) == index
  {
    DecimalValue(index);
    assert Power10(8) == MAX_COUNT;
    ZerosValue(INDEX_DIGITS - |Decimal(index)|, Decimal(index));
  }

  lemma {:induction false} MatchTagged(tag: bytes, digits: bytes, rest: bytes)
    requires IsTag(tag) && |digits| == INDEX_DIGITS && AllDigits(digits)
    ensures MatchIndex(tag + digits + rest) == Some(Value(digits))
  {
    var b := tag + digits + rest;
    if |tag| == 1 {
      assert b[1..1 + INDEX_DIGITS] == digits;
    } else {
      assert IsTagByte(tag[1]) && b[1] == tag[1];
      assert !IsDigit(b[1..1 + INDEX_DIGITS][0]);
      assert b[1..] == tag[1..] + digits + rest;
      MatchTagged(tag[1..], digits, rest);
    }
  }

  lemma KeyReads(prefix: bytes, tag: bytes, index: nat, rest: bytes)
    requires IsTag(tag) && index < MAX_COUNT
    ensures IndexInKey(prefix, prefix + tag + Padded(index) + rest) == Some(index)
  {
    PaddedReads(index);
    MatchTagged(tag, Padded(index), rest);
    var key := prefix + tag + Padded(index) + rest;
    assert key[|prefix|..] == tag + Padded(index) + rest;
  }

  /** A mutation that matches operation `index` carries that index in its key. */
  lemma MatchNamesIndex(prefix: bytes, index: nat, code: int, p1: bytes, p2: bytes)
    requires index < MAX_COUNT && Matches(ExpectedMutation(prefix, index), code, p1, p2)
    ensures IndexInKey(prefix, p1) == Some(index)
  {
    var mod, idx := index % 14, Padded(index);
    var tag, rest := TagOf(mod), [];
    if mod == 1 {
      rest := Ascii("/a");
    } else if mod == 9 {
      rest := p1[|prefix + tag + idx|..];
      assert p1[..|prefix + tag + idx|] == (prefix + tag + idx + ZeroStamp())[..|prefix + tag + idx|];
    }
    assert p1 == prefix + tag + idx + rest;
    KeyReads(prefix, tag, index, rest);
  }

  function TagOf(mod: nat): (t: bytes)
    ensures IsTag(t)
  {
    if mod == 0 then Ascii("set_")
    else if mod == 1 then Ascii("clr_")
    else if mod == 9 then Ascii("vsk_")
    else if mod == 10 then Ascii("vsv_")
    else if mod == 13 then Ascii("set_b_")
    else Operand(mod, []).1
  }

  lemma {:induction false} ValueBound(d: bytes)
    requires AllDigits(d)
    ensures Value(d) < Power10(|d|)
  {
    if d != [] {
      ValueBound(d[..|d| - 1]);
    }
  }

  lemma {:induction false} IndexBound(b: bytes)
    ensures MatchIndex(b).Some? ==> MatchIndex(b).value < MAX_COUNT
  {
    if b != [] && IsTagByte(b[0]) {
      if |b| >= 1 + INDEX_DIGITS && AllDigits(b[1..1 + INDEX_DIGITS]) {
        ValueBound(b[1..1 + INDEX_DIGITS]);
        assert Power10(8) == MAX_COUNT;
      } else {
        IndexBound(b[1..]);
      }
    }
  }
}
