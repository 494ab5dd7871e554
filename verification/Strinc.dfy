/** The key range of a prefix in byte-lexicographic order. */
module Strinc {
  import opened Prelude

  /** Lexicographic order; a proper prefix comes first. */
  predicate Less(a: bytes, b: bytes) {
    b != [] && (a == [] || a[0] < b[0] || (a[0] == b[0] && Less(a[1..], b[1..])))
  }

  predicate AtMost(a: bytes, b: bytes) {
    !Less(b, a)
  }

  predicate AllFF(key: bytes) {
    forall i :: 0 <= i < |key| ==> key[i] == 0xFF
  }

  /** `key.rstrip(b"\xff")` */
  function Strip(key: bytes): (r: bytes)
    ensures r <= key && AllFF(key[|r|..])
    ensures r != [] ==> r[|r| - 1] != 0xFF
    decreases |key|
  {
    if key != [] && key[|key| - 1] == 0xFF then Strip(key[..|key| - 1]) else key
  }

  function StrincOf(key: bytes): Option<bytes> {
    var stripped := Strip(key);
    if stripped == [] then None
    else Some(stripped[..|stripped| - 1] + [stripped[|stripped| - 1] + 1])
  }

  /** The result keeps the first byte when a later one can be raised, and raises the first otherwise. */
  lemma StrincHead(key: bytes)
    requires key != []
    ensures StrincOf(key) ==
            match StrincOf(key[1..])
            case Some(r) => Some([key[0]] + r)
            case None => if key[0] == 0xFF then None else Some([key[0] + 1])
  {
    StripHead(key);
    var tail := Strip(key[1..]);
    if tail != [] {
      var all := [key[0]] + tail;
      assert all[..|all| - 1] == [key[0]] + tail[..|tail| - 1];
      assert StrincOf(key).value == [key[0]] + StrincOf(key[1..]).value;
    } else if key[0] != 0xFF {
      assert Strip(key) == [key[0]] && Strip(key)[..0] == [];
      assert StrincOf(key).value == [key[0] + 1];
    }
  }

  lemma {:induction false} StripHead(key: bytes)
    requires key != []
    ensures Strip(key) == if Strip(key[1..]) != [] then [key[0]] + Strip(key[1..])
                          else if key[0] == 0xFF then [] else [key[0]]
    decreases |key|
  {
    if |key| > 1 && key[|key| - 1] == 0xFF {
      StripHead(key[..|key| - 1]);
      assert key[1..][..|key| - 2] == key[..|key| - 1][1..];
    } else if |key| == 1 {
      assert key[1..] == [] && key[..0] == [];
    }
  }

  lemma {:induction false} FFIsLast(p: bytes, k: bytes)
    requires AllFF(p) && AtMost(p, k)
    ensures p <= k
  {
    if p != [] {
      assert k != [] && k[0] == 0xFF;
      FFIsLast(p[1..], k[1..]);
    }
  }

  lemma {:induction false} PrefixIsFirst(p: bytes, k: bytes)
    requires p <= k
    ensures AtMost(p, k)
  {
    if p != [] {
      PrefixIsFirst(p[1..], k[1..]);
    }
  }

  /** There is no next prefix exactly when every byte, if any, is 0xFF. */
  lemma NoNextExactly(p: bytes)
    ensures StrincOf(p).None? <==> AllFF(p)
  {
    var r := Strip(p);
    if r == [] {
      assert p[0..] == p;
    } else {
      assert p[|r| - 1] == r[|r| - 1];
    }
  }

  /** `[p, strinc(p))` holds exactly the keys that begin with p. */
  lemma {:induction false} RangeIsPrefix(p: bytes, k: bytes)
    requires StrincOf(p).Some?
    ensures AtMost(p, k) && Less(k, StrincOf(p).value) <==> p <= k
  {
    NoNextExactly(p);
    if AllFF(p) {
      assert false;
    }
    StrincHead(p);
    NoNextExactly(p[1..]);
    if p <= k {
      PrefixIsFirst(p, k);
    }
    if k != [] && k[0] == p[0] {
      if StrincOf(p[1..]).Some? {
        RangeIsPrefix(p[1..], k[1..]);
      } else if AtMost(p[1..], k[1..]) {
        FFIsLast(p[1..], k[1..]);
      }
      assert p[1..] <= k[1..] <==> p <= k;
    }
  }

  function FFs(n: nat): (r: bytes)
    ensures |r| == n && AllFF(r)
  {
    seq(n, _ => 0xFF)
  }

  lemma {:induction false} LongFFNotBelow(k: bytes, end: bytes)
    requires AllFF(k) && |k| >= |end|
    ensures !Less(k, end)
  {
    if k != [] && end != [] {
      LongFFNotBelow(k[1..], end[1..]);
    }
  }

  /** When strinc raises, no end key would do: some key with the prefix is at or past any candidate. */
  lemma NoEndExists(p: bytes, end: bytes) returns (k: bytes)
    requires StrincOf(p).None?
    ensures p <= k && !Less(k, end)
  {
    NoNextExactly(p);
    k := p + FFs(|end|);
    LongFFNotBelow(k, end);
  }
}
