/** What the demo writes and what is committed for it: exactly the mutations the checker accepts. */
module WorkloadWrites {
  import opened Prelude
  import opened Workload

  /** A mutation by its type code, as the client writes it or as it is committed. */
  datatype Operation = Operation(code: int, param1: bytes, param2: bytes)

  const OFFSET_LEN := 4
  const MAX_OFFSET := 0xFFFF_FFFF

  /** The versionstamp to be, followed by where it goes: `struct.pack("<I", ...)` raises for an offset too large. */
  function Template(head: bytes): Option<bytes> {
    if |head| > MAX_OFFSET then None else Some(head + ZeroStamp() + LittleEndian(|head|, OFFSET_LEN))
  }

  /** The operation that the workload writes under `index`, if it can be written. */
  function WrittenOperation(prefix: bytes, index: nat): Option<Operation> {
    var idx, le8 := Padded(index), LittleEndian(index % 0x1_0000_0000, 8);
    match index % 14
    case 0 => Some(Operation(0, prefix + Ascii("set_") + idx, Ascii("val-") + Decimal(index)))
    case 1 =>
      Some(Operation(1, prefix + Ascii("clr_") + idx + Ascii("/a"), prefix + Ascii("clr_") + idx + Ascii("/z")))
    case 2 => Some(Operation(2, prefix + Ascii("add_") + idx, le8))
    case 3 => Some(Operation(6, prefix + Ascii("and_") + idx, [0x0F]))
    case 4 => Some(Operation(7, prefix + Ascii("or_") + idx, [0xF0]))
    case 5 => Some(Operation(8, prefix + Ascii("xor_") + idx, [0xAA]))
    case 6 => Some(Operation(9, prefix + Ascii("app_") + idx, Ascii("chunk")))
    case 7 => Some(Operation(12, prefix + Ascii("max_") + idx, le8))
    case 8 => Some(Operation(13, prefix + Ascii("min_") + idx, le8))
    case 9 =>
      var key :- Template(prefix + Ascii("vsk_") + idx);
      Some(Operation(14, key, Ascii("vsk_payload")))
    case 10 =>
      var value :- Template(Ascii("vsv_") + idx);
      Some(Operation(15, prefix + Ascii("vsv_") + idx, value))
    case 11 => Some(Operation(16, prefix + Ascii("bmin_") + idx, [0x10]))
    case 12 => Some(Operation(17, prefix + Ascii("bmax_") + idx, [0xFE]))
    case _ => Some(Operation(0, prefix + Ascii("set_b_") + idx, Ascii("val-b-") + Decimal(index)))
  }

  // ---------------------------------------------------------- the database's rewrite

  function FromLittleEndian(b: bytes): nat {
    if b == [] then 0 else b[0] + 256 * FromLittleEndian(b[1..])
  }

  /** The versionstamp goes where the last four bytes say, and they are dropped. */
  function Stamped(template: bytes, stamp: bytes): Option<bytes> {
    if |template| < OFFSET_LEN then None
    else
      var body := template[..|template| - OFFSET_LEN];
      var offset := FromLittleEndian(template[|template| - OFFSET_LEN..]);
      if offset + |stamp| > |body| then None else Some(body[..offset] + stamp + body[offset + |stamp|..])
  }

  /** The mutation an operation is committed as: AND and MIN in their second version, a versionstamped one as a set. */
  function Committed(op: Operation, stamp: bytes): Option<Operation> {
    match op.code
    case 6 => Some(op.(code := 19))
    case 13 => Some(op.(code := 18))
    case 14 =>
      var key :- Stamped(op.param1, stamp);
      Some(Operation(0, key, op.param2))
    case 15 =>
      var value :- Stamped(op.param2, stamp);
      Some(Operation(0, op.param1, value))
    case _ => Some(op)
  }

  lemma {:induction false} LittleEndianReads(n: nat, size: nat)
    requires n < Power256(size)
    ensures FromLittleEndian(LittleEndian(n, size)) == n
  {
    if size > 0 {
      LittleEndianReads(n / 256, size - 1);
    }
  }

  function Power256(size: nat): nat {
    if size == 0 then 1 else 256 * Power256(size - 1)
  }

  lemma TemplateIsStamped(head: bytes, stamp: bytes)
    requires |head| <= MAX_OFFSET && |stamp| == VERSIONSTAMP_LEN
    ensures Stamped(Template(head).value, stamp) == Some(head + stamp)
  {
    var template := Template(head).value;
    assert Power256(OFFSET_LEN) == 0x1_0000_0000;
    LittleEndianReads(|head|, OFFSET_LEN);
    assert template[..|template| - OFFSET_LEN] == head + ZeroStamp();
    assert template[|template| - OFFSET_LEN..] == LittleEndian(|head|, OFFSET_LEN);
    assert (head + ZeroStamp())[|head| + VERSIONSTAMP_LEN..] == [];
    assert head + stamp + [] == head + stamp;
  }

  /** Bytes that equal the expected ones but for the stamp are those with some other stamp. */
  lemma StampedEqualExactly(got: bytes, head: bytes)
    ensures StampedEqual(got, head + ZeroStamp(), |head|) <==>
            exists stamp: bytes :: |stamp| == VERSIONSTAMP_LEN && got == head + stamp
  {
    if StampedEqual(got, head + ZeroStamp(), |head|) {
      var stamp := got[|head|..];
      assert got == head + stamp;
    }
  }

  lemma PlainCommit(prefix: bytes, index: nat, stamp: bytes)
    requires index % 14 != 9 && index % 14 != 10
    ensures var e := ExpectedMutation(prefix, index);
            && e.stamp.None?
            && Committed(WrittenOperation(prefix, index).value, stamp)
               == Some(Operation(e.code, e.param1, e.param2))
  {
    hide Ascii, Padded, Decimal, LittleEndian, Stamped, Template;
  }

  lemma StampedKeyCommit(prefix: bytes, index: nat, stamp: bytes)
    requires index % 14 == 9 && WrittenOperation(prefix, index).Some? && |stamp| == VERSIONSTAMP_LEN
    ensures var e, head := ExpectedMutation(prefix, index), prefix + Ascii("vsk_") + Padded(index);
            && e.stamp == Some((1, |head|)) && e.param1 == head + ZeroStamp()
            && Committed(WrittenOperation(prefix, index).value, stamp)
               == Some(Operation(e.code, head + stamp, e.param2))
  {
    hide Ascii, Padded, Decimal, LittleEndian, Stamped;
    TemplateIsStamped(prefix + Ascii("vsk_") + Padded(index), stamp);
  }

  lemma StampedValueCommit(prefix: bytes, index: nat, stamp: bytes)
    requires index % 14 == 10 && WrittenOperation(prefix, index).Some? && |stamp| == VERSIONSTAMP_LEN
    ensures var e, head := ExpectedMutation(prefix, index), Ascii("vsv_") + Padded(index);
            && e.stamp == Some((2, |head|)) && e.param2 == head + ZeroStamp()
            && Committed(WrittenOperation(prefix, index).value, stamp)
               == Some(Operation(e.code, e.param1, head + stamp))
  {
    hide Ascii, Padded, Decimal, LittleEndian, Stamped;
    TemplateIsStamped(Ascii("vsv_") + Padded(index), stamp);
  }

  /** Some versionstamp makes the mutation of the operation. */
  ghost predicate CommittedAs(op: Operation, got: Operation) {
    exists stamp: bytes :: |stamp| == VERSIONSTAMP_LEN && Committed(op, stamp) == Some(got)
  }

  /**
   The checker accepts a mutation for operation `index` exactly when the operation is committed as that mutation under
   some versionstamp.
   */
  lemma MatchesExactly(prefix: bytes, index: nat, got: Operation)
    requires WrittenOperation(prefix, index).Some?
    ensures Matches(ExpectedMutation(prefix, index), got.code, got.param1, got.param2) <==>
            CommittedAs(WrittenOperation(prefix, index).value, got)
  {
    hide ExpectedMutation, WrittenOperation, Committed, ZeroStamp, StampedEqual, Ascii, Padded;
    var op := WrittenOperation(prefix, index).value;
    if index % 14 == 9 {
      forall stamp: bytes | |stamp| == VERSIONSTAMP_LEN { StampedKeyCommit(prefix, index, stamp); }
      StampedKeyCommit(prefix, index, seq(VERSIONSTAMP_LEN, _ => 0));
      StampedEqualExactly(got.param1, prefix + Ascii("vsk_") + Padded(index));
    } else if index % 14 == 10 {
      forall stamp: bytes | |stamp| == VERSIONSTAMP_LEN { StampedValueCommit(prefix, index, stamp); }
      StampedValueCommit(prefix, index, seq(VERSIONSTAMP_LEN, _ => 0));
      StampedEqualExactly(got.param2, Ascii("vsv_") + Padded(index));
    } else {
      forall stamp: bytes { PlainCommit(prefix, index, stamp); }
      PlainCommit(prefix, index, seq(VERSIONSTAMP_LEN, _ => 0));
    }
  }

  predicate SameButStamp(a: bytes, b: bytes) {
    var head := |a| - VERSIONSTAMP_LEN;
    |a| == |b| && head >= 0 && a[..head] == b[..head]
  }

  /** Two mutations accepted for one operation differ in the stamp alone. */
  lemma AcceptedDifferInStamp(prefix: bytes, index: nat, a: Operation, b: Operation)
    requires WrittenOperation(prefix, index).Some?
    requires var e := ExpectedMutation(prefix, index);
             Matches(e, a.code, a.param1, a.param2) && Matches(e, b.code, b.param1, b.param2)
    ensures a.code == b.code
    ensures if index % 14 == 9 then SameButStamp(a.param1, b.param1) else a.param1 == b.param1
    ensures if index % 14 == 10 then SameButStamp(a.param2, b.param2) else a.param2 == b.param2
  {
    hide ExpectedMutation, WrittenOperation, Committed, ZeroStamp, Ascii, Padded;
    if index % 14 == 9 {
      StampedKeyCommit(prefix, index, seq(VERSIONSTAMP_LEN, _ => 0));
      StampedEqualExactly(a.param1, prefix + Ascii("vsk_") + Padded(index));
      StampedEqualExactly(b.param1, prefix + Ascii("vsk_") + Padded(index));
    } else if index % 14 == 10 {
      StampedValueCommit(prefix, index, seq(VERSIONSTAMP_LEN, _ => 0));
      StampedEqualExactly(a.param2, Ascii("vsv_") + Padded(index));
      StampedEqualExactly(b.param2, Ascii("vsv_") + Padded(index));
    } else {
      PlainCommit(prefix, index, seq(VERSIONSTAMP_LEN, _ => 0));
    }
  }
}
