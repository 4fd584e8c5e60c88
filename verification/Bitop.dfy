/** bitops.c: BITOP.  As far as all keys have data the result is built 32 bytes at a time; the rest
    is built byte by byte, with early exits.  The bytes of one position of all the keys are a
    column. */
module Bitop {
  import opened Options
  import opened Bits

  datatype Op = And | Or | Xor | Not | Diff | Diff1 | AndOr | One

  /** In how many bytes of a column a bit is set. */
  function HasCount(c: Bytes, m: bv8): nat {
    if c == [] then 0 else HasCount(c[..|c| - 1], m) + if Has(c[|c| - 1], m) then 1 else 0
  }

  /** What each operator promises of a bit. */
  predicate Wanted(op: Op, c: Bytes, m: bv8)
    requires c != []
  {
    match op
    case And => HasCount(c, m) == |c|
    case Or => HasCount(c, m) > 0
    case Xor => HasCount(c, m) % 2 == 1
    case Not => !Has(c[0], m)
    case Diff => Has(c[0], m) && HasCount(c[1..], m) == 0
    case Diff1 => !Has(c[0], m) && HasCount(c[1..], m) > 0
    case AndOr => Has(c[0], m) && HasCount(c[1..], m) > 0
    case One => HasCount(c, m) == 1
  }

  // ----- the operators on whole bytes -----

  function AndAll(c: Bytes): bv8 {
    if c == [] then 0xff else Both(AndAll(c[..|c| - 1]), c[|c| - 1])
  }

  function OrAll(c: Bytes): bv8 {
    if c == [] then 0 else Either(OrAll(c[..|c| - 1]), c[|c| - 1])
  }

  function XorAll(c: Bytes): bv8 {
    if c == [] then 0 else Differ(XorAll(c[..|c| - 1]), c[|c| - 1])
  }

  /** The bits that are set more than once. */
  function Twice(c: Bytes): bv8 {
    if c == [] then 0 else Either(Twice(c[..|c| - 1]), Both(XorAll(c[..|c| - 1]), c[|c| - 1]))
  }

  function ByteOf(op: Op, c: Bytes): bv8
    requires c != []
  {
    match op
    case And => AndAll(c)
    case Or => OrAll(c)
    case Xor => XorAll(c)
    case Not => Flip(c[0])
    case Diff => Both(c[0], Flip(OrAll(c[1..])))
    case Diff1 => Both(Flip(c[0]), OrAll(c[1..]))
    case AndOr => Both(c[0], OrAll(c[1..]))
    case One => Both(XorAll(c), Flip(Twice(c)))
  }

  lemma {:induction false} AndAllHas(c: Bytes, m: bv8)
    requires OneHot(m)
    ensures HasCount(c, m) <= |c| && (Has(AndAll(c), m) <==> HasCount(c, m) == |c|)
  {
    hide OneHot, Has, Both, Either, Differ, Flip;
    if c == [] {
      FullHas(m);
    } else {
      AndAllHas(c[..|c| - 1], m);
      HasAnd(AndAll(c[..|c| - 1]), c[|c| - 1], m);
    }
  }

  lemma {:induction false} OrAllHas(c: Bytes, m: bv8)
    ensures Has(OrAll(c), m) <==> HasCount(c, m) > 0
  {
    hide Has, Either;
    if c == [] {
      ZeroHas(m);
    } else {
      OrAllHas(c[..|c| - 1], m);
      HasOr(OrAll(c[..|c| - 1]), c[|c| - 1], m);
    }
  }

  lemma {:induction false} XorAllHas(c: Bytes, m: bv8)
    requires OneHot(m)
    ensures Has(XorAll(c), m) <==> HasCount(c, m) % 2 == 1
  {
    hide OneHot, Has, Both, Either, Differ, Flip;
    if c == [] {
      ZeroHas(m);
    } else {
      XorAllHas(c[..|c| - 1], m);
      HasXor(XorAll(c[..|c| - 1]), c[|c| - 1], m);
    }
  }

  lemma {:induction false} TwiceHas(c: Bytes, m: bv8)
    requires OneHot(m)
    ensures Has(Twice(c), m) <==> HasCount(c, m) >= 2
  {
    hide OneHot, Has, Both, Either, Differ, Flip;
    if c == [] {
      ZeroHas(m);
    } else {
      var front, b := c[..|c| - 1], c[|c| - 1];
      TwiceHas(front, m);
      XorAllHas(front, m);
      HasAnd(XorAll(front), b, m);
      HasOr(Twice(front), Both(XorAll(front), b), m);
    }
  }

  /** The operators mean what they promise. */
  lemma ByteOfHas(op: Op, c: Bytes, m: bv8)
    requires OneHot(m) && c != []
    ensures Has(ByteOf(op, c), m) <==> Wanted(op, c, m)
  {
    hide OneHot, Has, HasCount, AndAll, OrAll, XorAll, Twice, Both, Either, Differ, Flip;
    match op {
      case And => AndAllHas(c, m);
      case Or => OrAllHas(c, m);
      case Xor => XorAllHas(c, m);
      case Not => HasNot(c[0], m);
      case Diff =>
        OrAllHas(c[1..], m);
        HasNot(OrAll(c[1..]), m);
        HasAnd(c[0], Flip(OrAll(c[1..])), m);
      case Diff1 =>
        OrAllHas(c[1..], m);
        HasNot(c[0], m);
        HasAnd(Flip(c[0]), OrAll(c[1..]), m);
      case AndOr =>
        OrAllHas(c[1..], m);
        HasAnd(c[0], OrAll(c[1..]), m);
      case One =>
        XorAllHas(c, m);
        TwiceHas(c, m);
        HasNot(Twice(c), m);
        HasAnd(XorAll(c), Flip(Twice(c)), m);
    }
  }

  // ----- the keys -----

  /** The bytes at position x, zero where a key has ended. */
  function Column(keys: seq<Bytes>, x: nat): (c: Bytes)
    ensures |c| == |keys| && forall k :: 0 <= k < |keys| ==> c[k] == ByteAt(keys[k], x)
  {
    seq(|keys|, k requires 0 <= k < |keys| => ByteAt(keys[k], x))
  }

  predicate OrFamily(op: Op) {
    op.Diff? || op.Diff1? || op.AndOr?
  }

  // ----- the byte tail -----

  lemma AndAllStep(c: Bytes, i: nat)
    requires i < |c|
    ensures AndAll(c[..i + 1]) == Both(AndAll(c[..i]), c[i])
  {
    assert c[..i + 1][..i] == c[..i];
  }

  lemma OrAllStep(c: Bytes, i: nat)
    requires i < |c|
    ensures OrAll(c[..i + 1]) == Either(OrAll(c[..i]), c[i])
  {
    assert c[..i + 1][..i] == c[..i];
  }

  lemma XorAllStep(c: Bytes, i: nat)
    requires i < |c|
    ensures XorAll(c[..i + 1]) == Differ(XorAll(c[..i]), c[i])
    ensures Twice(c[..i + 1]) == Either(Twice(c[..i]), Both(XorAll(c[..i]), c[i]))
  {
    assert c[..i + 1][..i] == c[..i];
  }

  lemma FirstByte(c: Bytes)
    requires c != []
    ensures AndAll(c[..1]) == c[0] && OrAll(c[..1]) == c[0] && XorAll(c[..1]) == c[0] && Twice(c[..1]) == 0
    ensures OrAll([]) == 0 && Flip(0) == 0xff && Both(c[0], 0xff) == c[0]
  {
    assert c[..1][..0] == [] && c[..1][0] == c[0];
    FirstByteValues(c[0]);
  }

  lemma FirstByteValues(b: bv8)
    ensures Both(0xff, b) == b && Either(0, b) == b && Differ(0, b) == b && Either(0, Both(0, b)) == 0
    ensures Flip(0) == 0xff && Both(b, 0xff) == b
  {
  }

  /** Nothing changes any more once no bit, or every bit, is left. */
  lemma {:induction false} Settled(c: Bytes, i: nat)
    requires i <= |c|
    ensures AndAll(c[..i]) == 0 ==> AndAll(c) == 0
    ensures OrAll(c[..i]) == 0xff ==> OrAll(c) == 0xff
    ensures Twice(c[..i]) == 0xff ==> Twice(c) == 0xff
    decreases |c| - i
  {
    if i == |c| {
      assert c[..i] == c;
    } else {
      hide Both, Either, Differ, AndAll, OrAll, XorAll, Twice;
      AndAllStep(c, i);
      OrAllStep(c, i);
      XorAllStep(c, i);
      SettledValues(c[i], Both(XorAll(c[..i]), c[i]));
      Settled(c, i + 1);
    }
  }

  lemma SettledValues(b: bv8, x: bv8)
    ensures Both(0, b) == 0 && Either(0xff, b) == 0xff && Either(0xff, x) == 0xff
  {
  }

  /** Clearing the repeated bits at every step, or once at the end, is the same. */
  lemma ClearedEarly(x: bv8, t: bv8, b: bv8)
    ensures var out := Both(x, Flip(t));
            && Either(t, Both(out, b)) == Either(t, Both(x, b))
            && Both(Differ(out, b), Flip(Either(t, Both(out, b)))) == Both(Differ(x, b), Flip(Either(t, Both(x, b))))
  {
  }

  lemma AllCleared(x: bv8)
    ensures Both(x, Flip(0xff)) == 0
  {
  }

  /** The loop over the keys for one byte of the tail. */
  method TailByte(op: Op, keys: seq<Bytes>, x: nat) returns (b: bv8)
    requires keys != [] && (op.Not? ==> |keys| == 1)
    ensures b == ByteOf(op, Column(keys, x))
  {
    hide Both, Either, Differ, Flip, AndAll, OrAll, XorAll, Twice;
    ghost var c := Column(keys, x);
    FirstByte(c);
    assert c[1..1] == [] && c[0..1] == c[..1] && c[0..] == c;
    var output := ByteAt(keys[0], x);
    match op {
      case Not => b := Flip(output);
      case And => b := TailAnd(keys, x);
      case Or => b := TailOr(keys, x, 0, ByteAt(keys[0], x));
      case Xor => b := TailXor(keys, x);
      case One => b := TailOne(keys, x);
      case Diff =>
        var disjunction := TailOr(keys, x, 1, 0);
        b := Both(output, Flip(disjunction));
      case Diff1 =>
        var disjunction := TailOr(keys, x, 1, 0);
        b := Both(Flip(output), disjunction);
      case AndOr =>
        var disjunction := TailOr(keys, x, 1, 0);
        b := Both(output, disjunction);
    }
  }

  method TailAnd(keys: seq<Bytes>, x: nat) returns (output: bv8)
    requires keys != []
    ensures output == AndAll(Column(keys, x))
  {
    hide Both, AndAll, ByteAt;
    ghost var c := Column(keys, x);
    FirstByte(c);
    output := ByteAt(keys[0], x);
    var i := 1;
    while i < |keys|
      invariant 1 <= i <= |keys| && output == AndAll(c[..i])
    {
      AndAllStep(c, i);
      output := Both(output, ByteAt(keys[i], x));
      i := i + 1;
      if output == 0 {
        Settled(c, i);
        return;
      }
    }
    assert c[..|c|] == c;
  }

  /** The disjunction of the keys from `first` on; the caller has put in what comes before. */
  method TailOr(keys: seq<Bytes>, x: nat, ghost first: nat, start: bv8) returns (output: bv8)
    requires keys != [] && first <= 1 && start == OrAll(Column(keys, x)[first..1])
    ensures output == OrAll(Column(keys, x)[first..])
  {
    hide Either, OrAll, ByteAt;
    ghost var c := Column(keys, x)[first..];
    output := start;
    var i := 1;
    assert Column(keys, x)[first..1] == c[..1 - first];
    while i < |keys|
      invariant 1 <= i <= |keys| && output == OrAll(c[..i - first])
    {
      OrAllStep(c, i - first);
      output := Either(output, ByteAt(keys[i], x));
      i := i + 1;
      if output == 0xff {
        Settled(c, i - first);
        return;
      }
    }
    assert c[..|c|] == c;
  }

  method TailXor(keys: seq<Bytes>, x: nat) returns (output: bv8)
    requires keys != []
    ensures output == XorAll(Column(keys, x))
  {
    hide Differ, XorAll, ByteAt;
    ghost var c := Column(keys, x);
    FirstByte(c);
    output := ByteAt(keys[0], x);
    var i := 1;
    while i < |keys|
      invariant 1 <= i <= |keys| && output == XorAll(c[..i])
    {
      XorAllStep(c, i);
      output := Differ(output, ByteAt(keys[i], x));
      i := i + 1;
    }
    assert c[..|c|] == c;
  }

  method TailOne(keys: seq<Bytes>, x: nat) returns (output: bv8)
    requires keys != []
    ensures output == Both(XorAll(Column(keys, x)), Flip(Twice(Column(keys, x))))
  {
    hide Both, Either, Differ, Flip, XorAll, Twice, ByteAt;
    ghost var c := Column(keys, x);
    FirstByte(c);
    output := ByteAt(keys[0], x);
    var common: bv8 := 0;
    var i := 1;
    while i < |keys|
      invariant 1 <= i <= |keys| && common == Twice(c[..i]) && output == Both(XorAll(c[..i]), Flip(common))
    {
      var byte := ByteAt(keys[i], x);
      XorAllStep(c, i);
      ClearedEarly(XorAll(c[..i]), common, byte);
      common := Either(common, Both(output, byte));
      output := Both(Differ(output, byte), Flip(common));
      i := i + 1;
      if common == 0xff {
        Settled(c, i);
        AllCleared(XorAll(c[..i]));
        AllCleared(XorAll(c));
        return;
      }
    }
    assert c[..|c|] == c;
  }

  // ----- the blocks -----

  const BLOCK: nat := 32

  /** What a block holds after the first `i` keys. */
  function Part(op: Op, c: Bytes, i: nat): bv8
    requires 1 <= i <= |c|
  {
    match op
    case And => AndAll(c[..i])
    case Or => OrAll(c[..i])
    case Xor | One => XorAll(c[..i])
    case Not => c[0]
    case _ => OrAll(c[1..i])
  }

  function Combine(op: Op, acc: bv8, b: bv8): bv8 {
    match op
    case And => Both(acc, b)
    case Xor | One => Differ(acc, b)
    case Not => acc
    case _ => Either(acc, b)
  }

  /** What the pass over the blocks leaves; the first key of DIFF, DIFF1 and ANDOR comes later. */
  function Body(op: Op, c: Bytes): bv8
    requires c != []
  {
    match op
    case Not => Flip(c[0])
    case One => Both(XorAll(c), Flip(Twice(c)))
    case _ => Part(op, c, |c|)
  }

  lemma PartStart(op: Op, c: Bytes)
    requires c != []
    ensures Part(op, c, 1) == (if OrFamily(op) then 0 else c[0]) && Twice(c[..1]) == 0
  {
    hide Both, Either, Differ, Flip, AndAll, OrAll, XorAll, Twice;
    FirstByte(c);
    assert c[1..1] == [];
  }

  lemma PartStep(op: Op, c: Bytes, i: nat)
    requires 1 <= i < |c|
    ensures Part(op, c, i + 1) == Combine(op, Part(op, c, i), c[i])
    ensures op.One? ==> Twice(c[..i + 1]) == Either(Twice(c[..i]), Both(Part(op, c, i), c[i]))
  {
    hide Both, Either, Differ, Flip, AndAll, OrAll, XorAll, Twice;
    AndAllStep(c, i);
    OrAllStep(c, i);
    XorAllStep(c, i);
    OrAllStep(c[1..], i - 1);
    assert c[1..][..i - 1] == c[1..i] && c[1..][..i] == c[1..i + 1];
  }

  /** One key over one block. */
  method BlockKey(op: Op, key: Bytes, res: array<bv8>, common: array<bv8>, j: nat)
    requires j + BLOCK <= res.Length && j + BLOCK <= |key| && common.Length == BLOCK && res != common
    modifies res, common
    ensures forall x :: 0 <= x < res.Length ==>
              res[x] == if j <= x < j + BLOCK then Combine(op, old(res[x]), key[x]) else old(res[x])
    ensures forall b :: 0 <= b < BLOCK ==>
              common[b] == if op.One? then Either(old(common[b]), Both(old(res[j + b]), key[j + b])) else old(common[b])
  {
    hide Combine, Either, Both;
    for b := 0 to BLOCK
      invariant forall x :: 0 <= x < res.Length ==>
                  res[x] == if j <= x < j + b then Combine(op, old(res[x]), key[x]) else old(res[x])
      invariant forall y :: 0 <= y < BLOCK ==>
                  common[y] == if op.One? && y < b then Either(old(common[y]), Both(old(res[j + y]), key[j + y]))
                    else old(common[y])
    {
      if op.One? {
        common[b] := Either(common[b], Both(res[j + b], key[j + b]));
      }
      res[j + b] := Combine(op, res[j + b], key[j + b]);
    }
  }

  /** All the keys over one block. */
  method BlockKeys(op: Op, keys: seq<Bytes>, res: array<bv8>, j: nat)
    requires keys != [] && j + BLOCK <= res.Length && (forall k :: 0 <= k < |keys| ==> j + BLOCK <= |keys[k]|)
    requires op.Not? ==> |keys| == 1
    requires forall x :: j <= x < j + BLOCK ==> res[x] == Part(op, Column(keys, x), 1)
    modifies res
    ensures forall x :: 0 <= x < res.Length ==>
              res[x] == if j <= x < j + BLOCK then Body(op, Column(keys, x)) else old(res[x])
  {
    hide Part, Combine, Either, Both, Twice, Flip, XorAll;
    var common := new bv8[BLOCK](_ => 0);
    forall x | j <= x < j + BLOCK
      ensures Twice(Column(keys, x)[..1]) == 0
    {
      PartStart(op, Column(keys, x));
    }
    var i := 1;
    while i < |keys|
      invariant 1 <= i <= |keys| && fresh(common)
      invariant forall x :: j <= x < j + BLOCK ==> res[x] == Part(op, Column(keys, x), i)
      invariant forall x :: j <= x < j + BLOCK && op.One? ==> common[x - j] == Twice(Column(keys, x)[..i])
      invariant forall x :: 0 <= x < res.Length && !(j <= x < j + BLOCK) ==> res[x] == old(res[x])
    {
      forall x | j <= x < j + BLOCK
        ensures Part(op, Column(keys, x), i + 1) == Combine(op, Part(op, Column(keys, x), i), keys[i][x])
        ensures op.One? ==> Twice(Column(keys, x)[..i + 1])
                            == Either(Twice(Column(keys, x)[..i]), Both(Part(op, Column(keys, x), i), keys[i][x]))
      {
        PartStep(op, Column(keys, x), i);
      }
      BlockKey(op, keys[i], res, common, j);
      i := i + 1;
    }
    BlockEnd(op, keys, res, common, j);
  }

  /** The last step on a block. */
  method BlockEnd(op: Op, keys: seq<Bytes>, res: array<bv8>, common: array<bv8>, j: nat)
    requires keys != [] && j + BLOCK <= res.Length && common.Length == BLOCK && res != common
    requires forall x :: j <= x < j + BLOCK ==> res[x] == Part(op, Column(keys, x), |keys|)
    requires forall x :: j <= x < j + BLOCK && op.One? ==> common[x - j] == Twice(Column(keys, x)[..|keys|])
    modifies res
    ensures forall x :: 0 <= x < res.Length ==>
              res[x] == if j <= x < j + BLOCK then Body(op, Column(keys, x)) else old(res[x])
  {
    hide Both, Twice, Flip, XorAll, AndAll, OrAll;
    forall x | j <= x < j + BLOCK
      ensures Column(keys, x)[..|keys|] == Column(keys, x)
    {
    }
    if op.Not? || op.One? {
      for b := 0 to BLOCK
        invariant forall x :: 0 <= x < res.Length ==>
                    res[x] == if j <= x < j + b then Body(op, Column(keys, x)) else old(res[x])
      {
        res[j + b] := if op.Not? then Flip(res[j + b]) else Both(res[j + b], Flip(common[b]));
      }
    }
  }

  /** The whole fast path; `j` is the number of bytes it has done. */
  method BlockPass(op: Op, keys: seq<Bytes>, res: array<bv8>, minlen: nat) returns (j: nat)
    requires keys != [] && minlen <= res.Length && (forall k :: 0 <= k < |keys| ==> minlen <= |keys[k]|)
    requires (op.Not? ==> |keys| == 1) && forall x :: 0 <= x < res.Length ==> res[x] == 0
    modifies res
    ensures j <= minlen && forall x :: 0 <= x < j ==> res[x] == ByteOf(op, Column(keys, x))
  {
    hide Both, Either, Twice, Flip, XorAll, AndAll, OrAll, Part, Body, ByteOf;
    if !OrFamily(op) {
      forall x | 0 <= x < minlen {
        res[x] := keys[0][x];
      }
    }
    forall x | 0 <= x < minlen
      ensures res[x] == Part(op, Column(keys, x), 1)
    {
      PartStart(op, Column(keys, x));
    }
    j := 0;
    while minlen - j >= BLOCK
      invariant j <= minlen
      invariant forall x :: 0 <= x < j ==> res[x] == Body(op, Column(keys, x))
      invariant forall x :: j <= x < minlen ==> res[x] == Part(op, Column(keys, x), 1)
    {
      BlockKeys(op, keys, res, j);
      j := j + BLOCK;
    }
    FirstKey(op, keys, res, j);
  }

  /** DIFF, DIFF1 and ANDOR take the first key in at the end. */
  method FirstKey(op: Op, keys: seq<Bytes>, res: array<bv8>, j: nat)
    requires keys != [] && j <= res.Length && |keys[0]| >= j
    requires forall x :: 0 <= x < j ==> res[x] == Body(op, Column(keys, x))
    modifies res
    ensures forall x :: 0 <= x < j ==> res[x] == ByteOf(op, Column(keys, x))
  {
    hide Both, Either, Twice, Flip, XorAll, AndAll, OrAll;
    forall x | 0 <= x < j
      ensures Column(keys, x)[..|keys|] == Column(keys, x) && Column(keys, x)[1..|keys|] == Column(keys, x)[1..]
    {
    }
    if OrFamily(op) {
      for i := 0 to j
        invariant forall x :: 0 <= x < j ==>
                  res[x] == if x < i then ByteOf(op, Column(keys, x)) else Body(op, Column(keys, x))
      {
        var first := keys[0][i];
        res[i] := if op.Diff? then Both(first, Flip(res[i]))
          else if op.Diff1? then Both(Flip(first), res[i]) else Both(first, res[i]);
      }
    }
  }

  // ----- the command -----

  /** A missing key is an empty string. */
  function Text(key: Option<Bytes>): Bytes {
    if key.None? then [] else key.value
  }

  function Texts(keys: seq<Option<Bytes>>): (r: seq<Bytes>)
    ensures |r| == |keys| && forall k :: 0 <= k < |keys| ==> r[k] == Text(keys[k])
  {
    seq(|keys|, k requires 0 <= k < |keys| => Text(keys[k]))
  }

  predicate GoodCount(op: Op, n: nat) {
    n >= 1 && (op.Not? ==> n == 1) && (OrFamily(op) ==> n >= 2)
  }

  /** The longest and the shortest of the keys, as the lookup loop computes them. */
  method Lengths(keys: seq<Option<Bytes>>) returns (maxlen: nat, minlen: nat)
    requires keys != []
    ensures forall k :: 0 <= k < |keys| ==> minlen <= |Text(keys[k])| <= maxlen
    ensures exists k :: 0 <= k < |keys| && |Text(keys[k])| == maxlen
    ensures exists k :: 0 <= k < |keys| && |Text(keys[k])| == minlen
  {
    maxlen, minlen := 0, 0;
    ghost var longest, shortest := 0, 0;
    for j := 0 to |keys|
      invariant forall k :: 0 <= k < j ==> minlen <= |Text(keys[k])| <= maxlen
      invariant j > 0 ==> 0 <= longest < j && |Text(keys[longest])| == maxlen
      invariant j > 0 ==> 0 <= shortest < j && |Text(keys[shortest])| == minlen
      invariant j == 0 ==> maxlen == 0 && minlen == 0 && longest == 0
    {
      if keys[j].None? {
        minlen := 0;
        shortest := j;
      } else {
        var len := |keys[j].value|;
        if len > maxlen {
          maxlen := len;
          longest := j;
        }
        if j == 0 || len < minlen {
          minlen := len;
          shortest := j;
        }
      }
    }
  }

  /** BITOP: the result for every bit of the longest key, or None for a wrong number of keys.
      `fast` says whether the machine takes the fast path. */
  method BitopCommand(op: Op, keys: seq<Option<Bytes>>, fast: bool) returns (result: Option<Bytes>)
    ensures result.None? <==> keys == [] || (op.Not? && |keys| > 1) || (OrFamily(op) && |keys| == 1)
    ensures result.Some? ==> (forall k :: 0 <= k < |keys| ==> |Text(keys[k])| <= |result.value|)
    ensures result.Some? ==> (exists k :: 0 <= k < |keys| && |Text(keys[k])| == |result.value|)
    ensures result.Some? ==> forall x, i :: 0 <= x < |result.value| && 0 <= i < 8 ==>
              (Has(result.value[x], Mask(i)) <==> Wanted(op, Column(Texts(keys), x), Mask(i)))
  {
    hide ByteOf, Has, Mask, Wanted;
    if !GoodCount(op, |keys|) {
      return None;
    }
    var src := Texts(keys);
    var maxlen, minlen := Lengths(keys);
    var res := new bv8[maxlen](_ => 0);
    var j := 0;
    if fast && minlen >= BLOCK {
      j := BlockPass(op, src, res, minlen);
    }
    while j < maxlen
      invariant j <= maxlen && forall x :: 0 <= x < j ==> res[x] == ByteOf(op, Column(src, x))
    {
      var b := TailByte(op, src, j);
      res[j] := b;
      j := j + 1;
    }
    forall x, i | 0 <= x < maxlen && 0 <= i < 8
      ensures Has(res[x], Mask(i)) <==> Wanted(op, Column(src, x), Mask(i))
    {
      ByteOfHas(op, Column(src, x), Mask(i));
    }
    return Some(res[..]);
  }
}
