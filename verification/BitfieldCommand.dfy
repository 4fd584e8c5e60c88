/** bitops.c: the operations of BITFIELD, run on a string. */
module BitfieldCommand {
  import opened Options
  import opened Bits
  import opened Words
  import opened Bitfield
  import opened BitfieldOverflow

  datatype FieldOp =
    | Get(signed: bool, bits: nat, offset: nat)
    | Put(signed: bool, bits: nat, offset: nat, value: int, how: Overflow)
    | IncrBy(signed: bool, bits: nat, offset: nat, value: int, how: Overflow)

  /** What the parser lets through: 64 bits signed, 63 bits unsigned, 64-bit arguments. */
  predicate OpOk(op: FieldOp) {
    && 1 <= op.bits <= (if op.signed then 64 else 63)
    && (!op.Get? ==> IsI64(op.value))
  }

  // ----- what the operations mean -----

  /** The number in a field. */
  function Read(s: Bytes, signed: bool, offset: nat, bits: nat): int
    requires bits >= 1
  {
    if signed then Signed(Value(s, offset, bits), bits) else Value(s, offset, bits)
  }

  /** A number below the range that SET with saturation takes for one above it. */
  predicate Misjudged(signed: bool, bits: nat, v: int)
    requires bits >= 1
  {
    !Fits(signed, bits, v) && if signed then v < Pow2(bits - 1) - I63 else v < 0
  }

  /** What SET stores. */
  function SetTo(signed: bool, bits: nat, how: Overflow, v: int): Option<int>
    requires bits >= 1
  {
    if how.Sat? && Misjudged(signed, bits, v) then Some(Max(signed, bits)) else Fitted(signed, bits, how, v)
  }

  /** SET saturates to the right end exactly for the other numbers. */
  lemma SetIsFitted(signed: bool, bits: nat, how: Overflow, v: int)
    requires 1 <= bits <= 64
    ensures SetTo(signed, bits, how, v) == Fitted(signed, bits, how, v) <==> !(how.Sat? && Misjudged(signed, bits, v))
  {
    hide Pow2;
    if bits < 64 {
      Powers();
      PowDouble(bits);
      Pow2Monotone(bits, 63);
    } else {
      Powers();
    }
  }

  /** A value that saturates the wrong way: -2 to the 62 less one, in a signed field of 63 bits. */
  lemma SaturatesTheWrongWay()
    ensures SetTo(true, 63, Sat, -0x4000_0000_0000_0001) == Some(0x3fff_ffff_ffff_ffff)
    ensures Fitted(true, 63, Sat, -0x4000_0000_0000_0001) == Some(-0x4000_0000_0000_0000)
    ensures SetTo(false, 8, Sat, -1) == Some(255) && Fitted(false, 8, Sat, -1) == Some(0)
  {
    hide Pow2;
    Powers();
    PowDouble(63);
    PowEight();
  }

  lemma PowEight()
    ensures Pow2(8) == 256 && Pow2(7) == 128
  {
  }

  predicate InPlace(op: FieldOp, s: Bytes) {
    op.Get? || op.offset + op.bits <= 8 * |s|
  }

  /** The string and the reply after an operation. */
  function Done(s: Bytes, op: FieldOp): (r: (Bytes, Option<int>))
    requires OpOk(op) && InPlace(op, s)
    ensures |r.0| == |s|
  {
    var was := Read(s, op.signed, op.offset, op.bits);
    match op
    case Get(_, _, _) => (s, Some(was))
    case Put(signed, bits, offset, value, how) =>
      var now := SetTo(signed, bits, how, value);
      if now.None? then (s, None) else (Write(s, offset, bits, now.value), Some(was))
    case IncrBy(signed, bits, offset, incr, how) =>
      var now := Fitted(signed, bits, how, was + incr);
      if now.None? then (s, None) else (Write(s, offset, bits, now.value), now)
  }

  /** What a field holds is a number of its range, and what is stored in it is read from it. */
  lemma ReadFits(s: Bytes, signed: bool, offset: nat, bits: nat)
    requires bits >= 1
    ensures Fits(signed, bits, Read(s, signed, offset, bits))
  {
    hide Pow2, Value;
    ValueBound(s, offset, bits);
    PowDouble(bits);
  }

  lemma WrittenIsRead(s: Bytes, signed: bool, offset: nat, bits: nat, v: int)
    requires bits >= 1 && offset + bits <= 8 * |s| && Fits(signed, bits, v)
    ensures Read(Write(s, offset, bits, v), signed, offset, bits) == v
  {
    hide Pow2, Value, Write;
    WriteValue(s, offset, bits, v);
    PowDouble(bits);
    var p: int := Pow2(bits);
    if v < 0 {
      ModUnique(v, p, -1, v + p);
    } else {
      ModUnique(v, p, 0, v);
    }
  }

  /** INCRBY leaves in the field the wrapped or clamped sum, or, if it fails, what was there; and it
      changes no other bit. */
  lemma IncrByStores(s: Bytes, op: FieldOp, q: nat)
    requires OpOk(op) && InPlace(op, s) && op.IncrBy?
    ensures var (t, reply) := Done(s, op);
            var was := Read(s, op.signed, op.offset, op.bits);
            && reply == Fitted(op.signed, op.bits, op.how, was + op.value)
            && (reply.Some? ==> Read(t, op.signed, op.offset, op.bits) == reply.value)
            && (reply.None? ==> t == s)
            && (q < op.offset || op.offset + op.bits <= q ==> BitAt(t, q) == BitAt(s, q))
  {
    hide Pow2, Value, Write, BitAt;
    var was := Read(s, op.signed, op.offset, op.bits);
    var now := Fitted(op.signed, op.bits, op.how, was + op.value);
    if now.Some? {
      FittedFits(op.signed, op.bits, op.how, was + op.value);
      WrittenIsRead(s, op.signed, op.offset, op.bits, now.value);
      if q < op.offset || op.offset + op.bits <= q {
        WriteOutside(s, op.offset, op.bits, now.value, q);
      }
    }
  }

  lemma FittedFits(signed: bool, bits: nat, how: Overflow, t: int)
    requires bits >= 1
    ensures Fitted(signed, bits, how, t).Some? ==> Fits(signed, bits, Fitted(signed, bits, how, t).value)
  {
    hide Pow2;
    PowDouble(bits);
  }

  /** SET answers what was there and stores the number, as far as it fits. */
  lemma PutStores(s: Bytes, op: FieldOp, q: nat)
    requires OpOk(op) && InPlace(op, s) && op.Put?
    ensures var (t, reply) := Done(s, op);
            var now := SetTo(op.signed, op.bits, op.how, op.value);
            && (now.Some? ==>
                  && reply == Some(Read(s, op.signed, op.offset, op.bits))
                  && Read(t, op.signed, op.offset, op.bits) == now.value)
            && (now.None? ==> reply == None && t == s)
            && (q < op.offset || op.offset + op.bits <= q ==> BitAt(t, q) == BitAt(s, q))
  {
    hide Pow2, Value, Write, BitAt;
    var now := SetTo(op.signed, op.bits, op.how, op.value);
    if now.Some? {
      FittedFits(op.signed, op.bits, op.how, op.value);
      PowDouble(op.bits);
      WrittenIsRead(s, op.signed, op.offset, op.bits, now.value);
      if q < op.offset || op.offset + op.bits <= q {
        WriteOutside(s, op.offset, op.bits, now.value, q);
      }
    }
  }

  // ----- the code -----

  /** GET: the field is read from a copy of nine bytes, which zeros pad. */
  method GetWindow(src: Bytes, signed: bool, offset: nat, bits: nat) returns (val: int)
    requires 1 <= bits <= 64
    ensures val == Read(src, signed, offset, bits)
  {
    hide Value, BitAt, Pow2;
    var byte := offset / 8;
    var buf := new bv8[9](_ => 0);
    var i := 0;
    while i < 9 && i + byte < |src|
      invariant i <= 9 && forall k :: 0 <= k < 9 ==> buf[k] == if k < i then ByteAt(src, byte + k) else 0
      invariant 0 < i ==> i + byte <= |src|
    {
      buf[i] := src[i + byte];
      i := i + 1;
    }
    var b := buf[..];
    WindowValue(src, b, byte, offset - 8 * byte, bits);
    if signed {
      val := GetSignedBitfield(b, offset - 8 * byte, bits);
    } else {
      val := GetUnsignedBitfield(b, offset - 8 * byte, bits);
    }
  }

  lemma WindowValue(src: Bytes, b: Bytes, byte: nat, off: nat, bits: nat)
    requires |b| == 9 && off < 8 && bits <= 64 && forall k :: 0 <= k < 9 ==> b[k] == ByteAt(src, byte + k)
    ensures Value(b, off, bits) == Value(src, 8 * byte + off, bits)
  {
    hide BitAt;
    if bits > 0 {
      WindowValue(src, b, byte, off, bits - 1);
      WindowBit(src, b, byte, off + bits - 1);
    }
  }

  lemma WindowBit(src: Bytes, b: Bytes, byte: nat, q: nat)
    requires |b| == 9 && q < 72 && forall k :: 0 <= k < 9 ==> b[k] == ByteAt(src, byte + k)
    ensures BitAt(b, q) == BitAt(src, 8 * byte + q)
  {
    assert (8 * byte + q) / 8 == byte + q / 8 && (8 * byte + q) % 8 == q % 8;
  }

  /** What SET and INCRBY should store. */
  function Stored(op: FieldOp, was: int): Option<int>
    requires OpOk(op) && !op.Get?
  {
    if op.IncrBy? then Fitted(op.signed, op.bits, op.how, was + op.value)
      else SetTo(op.signed, op.bits, op.how, op.value)
  }

  /** A SET gives the field the number as it fits, clamped to the right end, exactly if the number
      is not misjudged; an INCRBY always does. */
  method NewSigned(oldval: int, op: FieldOp) returns (newval: int, failed: bool)
    requires OpOk(op) && !op.Get? && op.signed && Fits(true, op.bits, oldval)
    ensures failed <==> Stored(op, oldval).None?
    ensures !failed ==> Stored(op, oldval) == Some(newval)
    ensures var t := if op.IncrBy? then oldval + op.value else op.value;
            (if failed then None else Some(newval)) == Fitted(true, op.bits, op.how, t)
            <==> !(op.Put? && op.how.Sat? && !Fits(true, op.bits, op.value) && op.value < Pow2(op.bits - 1) - I63)
  {
    hide Pow2, Signed;
    SignedRange(op.bits);
    SetIsFitted(true, op.bits, op.how, op.value);
    var limit, overflow: int;
    if op.IncrBy? {
      overflow, limit := CheckSigned(oldval, op.value, op.bits, op.how);
      newval := if overflow != 0 then limit else oldval + op.value;
    } else {
      newval := op.value;
      overflow, limit := CheckSigned(newval, 0, op.bits, op.how);
      if overflow != 0 {
        newval := limit;
      }
    }
    failed := overflow != 0 && op.how.Fail?;
  }

  /** SET and INCRBY on a signed field. */
  method DoSigned(p: array<bv8>, op: FieldOp) returns (reply: Option<int>)
    requires OpOk(op) && InPlace(op, p[..]) && !op.Get? && op.signed
    modifies p
    ensures (p[..], reply) == Done(old(p[..]), op)
  {
    hide Value, Write, Pow2, Signed, SetTo, Fitted;
    var oldval := GetSignedBitfield(p[..], op.offset, op.bits);
    ReadFits(p[..], true, op.offset, op.bits);
    SignedRange(op.bits);
    var newval, failed := NewSigned(oldval, op);
    if failed {
      return None;
    }
    StoredFits(op, oldval);
    SetSignedBitfield(p, op.offset, op.bits, newval);
    return Some(if op.IncrBy? then newval else oldval);
  }

  lemma SignedRange(bits: nat)
    requires 1 <= bits <= 64
    ensures -I63 <= Min(true, bits) && Max(true, bits) < I63
  {
    hide Pow2;
    Powers();
    Pow2Monotone(bits - 1, 63);
  }

  lemma StoredFits(op: FieldOp, was: int)
    requires OpOk(op) && !op.Get?
    ensures Fitted(op.signed, op.bits, op.how, was + op.value).Some? ==>
              Fits(op.signed, op.bits, Fitted(op.signed, op.bits, op.how, was + op.value).value)
    ensures SetTo(op.signed, op.bits, op.how, op.value).Some? ==>
              Fits(op.signed, op.bits, SetTo(op.signed, op.bits, op.how, op.value).value)
  {
    hide Pow2;
    PowDouble(op.bits);
    FittedFits(op.signed, op.bits, op.how, was + op.value);
    FittedFits(op.signed, op.bits, op.how, op.value);
  }

  method IncrUnsigned(oldval: nat, op: FieldOp) returns (newval: nat, failed: bool)
    requires OpOk(op) && op.IncrBy? && !op.signed && Fits(false, op.bits, oldval)
    ensures failed <==> Stored(op, oldval).None?
    ensures !failed ==> Stored(op, oldval) == Some(newval as int)
  {
    hide Pow2;
    UnsignedRange(op.bits);
    var overflow, limit := CheckUnsigned(oldval, op.value, op.bits, op.how);
    newval := if overflow != 0 then limit else ToU64(oldval + op.value);
    failed := overflow != 0 && op.how.Fail?;
  }

  /** A SET gives the field the number as it fits, clamped to the right end, exactly if it does not
      have to clamp a negative number. */
  method PutUnsigned(op: FieldOp) returns (newval: nat, failed: bool)
    requires OpOk(op) && op.Put? && !op.signed
    ensures failed <==> Stored(op, 0).None?
    ensures !failed ==> Stored(op, 0) == Some(newval as int)
    ensures (if failed then None else Some(newval as int)) == Fitted(false, op.bits, op.how, op.value)
            <==> !(op.how.Sat? && op.value < 0)
  {
    hide Pow2;
    SetIsFitted(false, op.bits, op.how, op.value);
    UnsignedRange(op.bits);
    WordMod(op.value, op.bits);
    newval := ToU64(op.value);
    assert newval as int == if op.value < 0 then op.value + U64 else op.value;
    var overflow, limit := CheckUnsigned(newval, 0, op.bits, op.how);
    newval := if overflow != 0 then limit else newval;
    failed := overflow != 0 && op.how.Fail?;
  }

  method NewUnsigned(oldval: nat, op: FieldOp) returns (newval: nat, failed: bool)
    requires OpOk(op) && !op.Get? && !op.signed && Fits(false, op.bits, oldval)
    ensures failed <==> Stored(op, oldval).None?
    ensures !failed ==> Stored(op, oldval) == Some(newval as int)
  {
    hide Fitted, SetTo;
    if op.IncrBy? {
      newval, failed := IncrUnsigned(oldval, op);
    } else {
      newval, failed := PutUnsigned(op);
    }
  }

  /** SET and INCRBY on an unsigned field. */
  method DoUnsigned(p: array<bv8>, op: FieldOp) returns (reply: Option<int>)
    requires OpOk(op) && InPlace(op, p[..]) && !op.Get? && !op.signed
    modifies p
    ensures (p[..], reply) == Done(old(p[..]), op)
  {
    hide Value, Write, Pow2, Signed, SetTo, Fitted;
    var oldval := GetUnsignedBitfield(p[..], op.offset, op.bits);
    ReadFits(p[..], false, op.offset, op.bits);
    UnsignedRange(op.bits);
    var newval, failed := NewUnsigned(oldval, op);
    if failed {
      return None;
    }
    StoredFits(op, oldval);
    SetUnsignedBitfield(p, op.offset, op.bits, newval);
    return Some(if op.IncrBy? then newval as int else oldval as int);
  }

  lemma UnsignedRange(bits: nat)
    requires 1 <= bits <= 63
    ensures Max(false, bits) < I63 && Min(false, bits) == 0
  {
    hide Pow2;
    Powers();
    Pow2Monotone(bits, 63);
  }

  // ----- a whole command -----

  /** All the operations, one after the other. */
  function DoneAll(s: Bytes, ops: seq<FieldOp>): (r: (Bytes, seq<Option<int>>))
    requires forall i :: 0 <= i < |ops| ==> OpOk(ops[i]) && InPlace(ops[i], s)
    ensures |r.0| == |s|
  {
    if ops == [] then (s, [])
    else
      var n := |ops| - 1;
      var before := DoneAll(s, ops[..n]);
      assert InPlace(ops[n], s);
      var last := Done(before.0, ops[n]);
      (last.0, before.1 + [last.1])
  }

  /** The strings that the operations leave one after the other, and their replies. */
  ghost predicate Chained(states: seq<Bytes>, ops: seq<FieldOp>, replies: seq<Option<int>>) {
    && |states| == |ops| + 1 && |replies| == |ops|
    && forall i :: 0 <= i < |ops| ==>
         OpOk(ops[i]) && InPlace(ops[i], states[i]) && (states[i + 1], replies[i]) == Done(states[i], ops[i])
  }

  ghost predicate AllInPlace(ops: seq<FieldOp>, s: Bytes) {
    forall i :: 0 <= i < |ops| ==> OpOk(ops[i]) && InPlace(ops[i], s)
  }

  /** Reply i is the reply of operation i on the string that the first i operations left. */
  lemma {:induction false} DoneAllAt(s: Bytes, ops: seq<FieldOp>, i: nat)
    requires AllInPlace(ops, s) && i < |ops|
    ensures AllInPlace(ops[..i], s) && AllInPlace(ops[..i + 1], s) && |DoneAll(s, ops).1| == |ops|
    ensures var (t, _) := DoneAll(s, ops[..i]);
            OpOk(ops[i]) && InPlace(ops[i], t)
              && Done(t, ops[i]) == (DoneAll(s, ops[..i + 1]).0, DoneAll(s, ops).1[i])
    decreases |ops|
  {
    hide Done, OpOk;
    var n := |ops| - 1;
    assert ops[..i + 1][..i] == ops[..i];
    RepliesCount(s, ops);
    if i == n {
      assert ops[..i + 1] == ops;
      RepliesCount(s, ops[..n]);
    } else {
      DoneAllAt(s, ops[..n], i);
      assert ops[..n][..i] == ops[..i] && ops[..n][..i + 1] == ops[..i + 1];
    }
  }

  lemma {:induction false} RepliesCount(s: Bytes, ops: seq<FieldOp>)
    requires AllInPlace(ops, s)
    ensures |DoneAll(s, ops).1| == |ops|
    decreases |ops|
  {
    hide Done, OpOk, InPlace;
    if ops != [] {
      RepliesCount(s, ops[..|ops| - 1]);
    }
  }

  lemma DoneAllChained(s: Bytes, ops: seq<FieldOp>) returns (states: seq<Bytes>)
    requires AllInPlace(ops, s)
    ensures Chained(states, ops, DoneAll(s, ops).1) && states[0] == s && states[|ops|] == DoneAll(s, ops).0
  {
    hide Done, DoneAll, OpOk, InPlace;
    assert forall i :: 0 <= i <= |ops| ==> AllInPlace(ops[..i], s);
    states := seq(|ops| + 1, i requires 0 <= i <= |ops| => DoneAll(s, ops[..i]).0);
    RepliesCount(s, ops);
    forall i | 0 <= i < |ops|
      ensures OpOk(ops[i]) && InPlace(ops[i], states[i])
              && (states[i + 1], DoneAll(s, ops).1[i]) == Done(states[i], ops[i])
    {
      DoneAllAt(s, ops, i);
    }
    assert ops[..|ops|] == ops && ops[..0] == [];
    DoneNothing(s);
  }

  lemma DoneNothing(s: Bytes)
    ensures DoneAll(s, []) == (s, [])
  {
  }

  /** The loop of bitfieldGeneric that runs the operations. */
  method RunOps(p: array<bv8>, ops: seq<FieldOp>) returns (replies: seq<Option<int>>)
    requires forall i :: 0 <= i < |ops| ==> OpOk(ops[i]) && InPlace(ops[i], p[..])
    modifies p
    ensures (p[..], replies) == DoneAll(old(p[..]), ops)
  {
    hide Done, Read, OpOk;
    ghost var s := p[..];
    replies := [];
    var j := 0;
    while j < |ops|
      invariant j <= |ops| && (p[..], replies) == DoneAll(s, ops[..j])
    {
      assert ops[..j + 1][..j] == ops[..j];
      OpStaysInPlace(ops[j], s, p[..]);
      var reply := RunOp(p, ops[j]);
      replies := replies + [reply];
      j := j + 1;
    }
    assert ops[..|ops|] == ops;
  }

  lemma OpStaysInPlace(op: FieldOp, s: Bytes, t: Bytes)
    requires InPlace(op, s) && |t| == |s|
    ensures InPlace(op, t)
  {
  }

  method RunOp(p: array<bv8>, op: FieldOp) returns (reply: Option<int>)
    requires OpOk(op) && InPlace(op, p[..])
    modifies p
    ensures (p[..], reply) == Done(old(p[..]), op)
  {
    hide Value, Write, Pow2, Signed, SetTo, Fitted;
    if op.Get? {
      var val := GetWindow(p[..], op.signed, op.offset, op.bits);
      return Some(val);
    } else if op.signed {
      reply := DoSigned(p, op);
    } else {
      reply := DoUnsigned(p, op);
    }
  }

  function HighestWrite(ops: seq<FieldOp>): (h: nat)
    requires forall i :: 0 <= i < |ops| ==> OpOk(ops[i])
    ensures forall i :: 0 <= i < |ops| && !ops[i].Get? ==> ops[i].offset + ops[i].bits - 1 <= h
    ensures h == 0 || exists i :: 0 <= i < |ops| && !ops[i].Get? && ops[i].offset + ops[i].bits - 1 == h
  {
    if ops == [] then 0
    else
      var n := |ops| - 1;
      var h := HighestWrite(ops[..n]);
      assert forall i :: 0 <= i < n ==> ops[..n][i] == ops[i];
      if !ops[n].Get? && h < ops[n].offset + ops[n].bits - 1 then ops[n].offset + ops[n].bits - 1 else h
  }

  predicate ReadOnly(ops: seq<FieldOp>) {
    forall i :: 0 <= i < |ops| ==> ops[i].Get?
  }

  function Grown(s: Bytes, size: nat): (t: Bytes)
    ensures |t| == if |s| < size then size else |s|
    ensures forall j :: 0 <= j < |t| ==> t[j] == ByteAt(s, j)
  {
    s + seq(if |s| < size then size - |s| else 0, _ => 0)
  }

  /** A length that holds every written field. */
  predicate Holds(size: nat, ops: seq<FieldOp>) {
    forall i :: 0 <= i < |ops| && !ops[i].Get? ==> ops[i].offset + ops[i].bits <= 8 * size
  }

  /** The string becomes as long as the written fields need, and not longer. */
  lemma LeastSize(ops: seq<FieldOp>, size: nat)
    requires (forall i :: 0 <= i < |ops| ==> OpOk(ops[i])) && !ReadOnly(ops)
    ensures Holds(size, ops) <==> size >= HighestWrite(ops) / 8 + 1
  {
    hide HighestWrite;
    var h := HighestWrite(ops);
    var w :| 0 <= w < |ops| && !ops[w].Get?;
    assert ops[w].offset + ops[w].bits - 1 <= h;
    if h == 0 {
      assert ops[w].offset + ops[w].bits - 1 == h;
    }
    var i :| 0 <= i < |ops| && !ops[i].Get? && ops[i].offset + ops[i].bits - 1 == h;
    if Holds(size, ops) {
      assert ops[i].offset + ops[i].bits <= 8 * size;
    }
  }

  /** bitfieldGeneric, once the operations are parsed: a command that writes first makes the string
      long enough; a command that only reads leaves even a missing key alone. */
  method BitfieldGeneric(key: Option<Bytes>, ops: seq<FieldOp>)
      returns (result: Option<Bytes>, replies: seq<Option<int>>, ghost states: seq<Bytes>)
    requires forall i :: 0 <= i < |ops| ==> OpOk(ops[i])
    ensures ReadOnly(ops) ==> result == key
    ensures var s := if key.None? then [] else key.value;
            && Chained(states, ops, replies)
            && |s| <= |states[0]| && states[0] == Grown(s, |states[0]|)
            && (ReadOnly(ops) ==> states[0] == s)
            && (!ReadOnly(ops) ==> result == Some(states[|ops|]))
    ensures !ReadOnly(ops) ==>
              var n := if key.None? then 0 else |key.value|;
              forall size :: 0 <= size ==> (|result.value| <= size <==> n <= size && Holds(size, ops))
    ensures AllInPlace(ops, states[0]) && (states[|ops|], replies) == DoneAll(states[0], ops)
  {
    hide Done, DoneAll, OpOk, HighestWrite, Grown, Holds;
    var s := if key.None? then [] else key.value;
    var t := if ReadOnly(ops) then s else Grown(s, HighestWrite(ops) / 8 + 1);
    var p := new bv8[|t|](i requires 0 <= i < |t| => t[i]);
    assert p[..] == t;
    replies := RunOps(p, ops);
    result := if ReadOnly(ops) then key else Some(p[..]);
    states := DoneAllChained(t, ops);
    GrownTwice(s, HighestWrite(ops) / 8 + 1);
    if !ReadOnly(ops) {
      forall size: nat
        ensures Holds(size, ops) <==> size >= HighestWrite(ops) / 8 + 1
      {
        LeastSize(ops, size);
      }
    }
  }

  lemma GrownTwice(s: Bytes, size: nat)
    ensures Grown(s, |s|) == s && Grown(s, |Grown(s, size)|) == Grown(s, size)
  {
  }

  /** Growing a string changes no bit and no field of it. */
  lemma GrownBits(s: Bytes, size: nat, q: nat)
    ensures BitAt(Grown(s, size), q) == BitAt(s, q)
  {
  }
}
