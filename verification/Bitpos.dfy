/** bitops.c: redisBitpos.  A word is kept as its eight bytes, the first the most significant, and
    the one-bit mask that walks over it as the number of its bit. */
module Bitpos {
  import opened Bits

  /** The first position from p on, within the string, where the bit is as wanted, or its end. */
  function First(s: Bytes, bit: bool, p: nat): (r: nat)
    requires p <= 8 * |s|
    ensures p <= r <= 8 * |s| && (r < 8 * |s| ==> BitAt(s, r) == bit) && forall q :: p <= q < r ==> BitAt(s, q) != bit
    decreases 8 * |s| - p
  {
    if p == 8 * |s| || BitAt(s, p) == bit then p else First(s, bit, p + 1)
  }

  lemma FirstIs(s: Bytes, bit: bool, p: nat, r: nat)
    requires p <= r <= 8 * |s| && (r < 8 * |s| ==> BitAt(s, r) == bit) && forall q :: p <= q < r ==> BitAt(s, q) != bit
    ensures First(s, bit, p) == r
  {
    hide BitAt;
  }

  /** What a bit-by-bit scan answers: zeros follow the string, ones do not. */
  function Scan(s: Bytes, bit: bool): int {
    var r := First(s, bit, 0);
    if r == 8 * |s| && bit then -1 else r
  }

  function SkipByte(bit: bool): bv8 {
    if bit then 0 else 0xff
  }

  /** A byte that can be skipped has no bit of the wanted kind. */
  lemma SkipHas(bit: bool, i: nat)
    requires i < 8
    ensures Has(SkipByte(bit), Mask(i)) != bit
  {
    if bit {
      ZeroHas(Mask(i));
    } else {
      FullHas(Mask(i));
    }
  }

  /** No bit before byte c is wanted. */
  predicate Skipped(s: Bytes, bit: bool, c: nat) {
    forall q :: 0 <= q < 8 * c ==> BitAt(s, q) != bit
  }

  lemma SkipOne(s: Bytes, bit: bool, c: nat)
    requires Skipped(s, bit, c) && ByteAt(s, c) == SkipByte(bit)
    ensures Skipped(s, bit, c + 1)
  {
    hide BitAt, Has, Mask, SkipByte, ByteAt;
    forall q | 8 * c <= q < 8 * (c + 1)
      ensures BitAt(s, q) != bit
    {
      BitInByte(s, c, q - 8 * c);
      SkipHas(bit, q - 8 * c);
    }
  }

  /** All eight bytes can be skipped. */
  predicate AllSkip(s: Bytes, bit: bool, c: nat) {
    forall j :: c <= j < c + 8 ==> ByteAt(s, j) == SkipByte(bit)
  }

  lemma {:induction false} SkipMany(s: Bytes, bit: bool, c: nat, n: nat)
    requires Skipped(s, bit, c) && forall j :: c <= j < c + n ==> ByteAt(s, j) == SkipByte(bit)
    ensures Skipped(s, bit, c + n)
    decreases n
  {
    hide Skipped, ByteAt, SkipByte;
    if n > 0 {
      SkipMany(s, bit, c, n - 1);
      SkipOne(s, bit, c + n - 1);
    }
  }

  /** The word at byte c, padded with zeros. */
  function Load(s: Bytes, c: nat): (w: Bytes)
    ensures |w| == 8 && forall k :: 0 <= k < 8 ==> w[k] == ByteAt(s, c + k)
  {
    seq(8, k requires 0 <= k < 8 => ByteAt(s, c + k))
  }

  lemma WordBit(s: Bytes, c: nat, i: nat)
    requires i < 64
    ensures Has(Load(s, c)[i / 8], Mask(i % 8)) == BitAt(s, 8 * c + i)
  {
    hide BitAt, Has, Mask;
    BitInByte(s, c + i / 8, i % 8);
    assert 8 * (c + i / 8) + i % 8 == 8 * c + i;
  }

  /** The word cannot be skipped: it has a wanted bit, or it reaches behind the string. */
  predicate Stopped(s: Bytes, bit: bool, c: nat) {
    c <= |s| && (|s| - c < 8 || !AllSkip(s, bit, c))
  }

  /** redisBitpos. */
  method RedisBitpos(s: Bytes, address: nat, bit: bool) returns (pos: int)
    ensures pos == Scan(s, bit)
  {
    hide Skipped, SkipByte, ByteAt, First, AllSkip, Load;
    var c := 0;
    var found := false;
    SkipNone(s, bit);
    while (address + c) % 8 != 0 && c < |s| && !found
      invariant c <= |s| && Skipped(s, bit, c) && (found ==> Stopped(s, bit, c))
      decreases |s| - c, !found
    {
      if ByteAt(s, c) != SkipByte(bit) {
        found := true;
        FirstStops(s, bit, c);
      } else {
        SkipOne(s, bit, c);
        c := c + 1;
      }
    }
    if !found {
      var go := true;
      while |s| - c >= 8 && go
        invariant c <= |s| && Skipped(s, bit, c) && (!go ==> Stopped(s, bit, c))
        decreases |s| - c, go
      {
        if !AllSkip(s, bit, c) {
          go := false;
        } else {
          SkipWord(s, bit, c);
          c := c + 8;
        }
      }
    }
    assert Stopped(s, bit, c);
    var word := Load(s, c);
    if bit && word == ZEROS {
      NothingFound(s, c);
      return -1;
    }
    ghost var last := SomethingFound(s, bit, c);
    pos := 8 * c;
    var i := 0;
    while i < 64
      invariant i <= last && pos == 8 * c + i
      invariant forall k :: 0 <= k < i ==> Has(word[k / 8], Mask(k % 8)) != bit
    {
      if Has(word[i / 8], Mask(i % 8)) == bit {
        FoundAt(s, bit, c, i);
        return;
      }
      pos := pos + 1;
      i := i + 1;
    }
    assert false;
  }

  lemma SkipNone(s: Bytes, bit: bool)
    ensures Skipped(s, bit, 0)
  {
  }

  lemma FirstStops(s: Bytes, bit: bool, c: nat)
    requires c < |s| && ByteAt(s, c) != SkipByte(bit)
    ensures Stopped(s, bit, c)
  {
    hide ByteAt, SkipByte;
  }

  lemma SkipWord(s: Bytes, bit: bool, c: nat)
    requires Skipped(s, bit, c) && AllSkip(s, bit, c)
    ensures Skipped(s, bit, c + 8)
  {
    hide Skipped, ByteAt, SkipByte;
    SkipMany(s, bit, c, 8);
  }

  const ZEROS: Bytes := [0, 0, 0, 0, 0, 0, 0, 0]

  lemma NothingFound(s: Bytes, c: nat)
    requires Stopped(s, true, c) && Skipped(s, true, c) && Load(s, c) == ZEROS
    ensures Scan(s, true) == -1
  {
    hide Skipped, ByteAt, First;
    forall j | c <= j < c + 8
      ensures ByteAt(s, j) == SkipByte(true)
    {
      assert Load(s, c)[j - c] == ZEROS[j - c];
    }
    SkipWord(s, true, c);
    NoneBefore(s, true, c + 8);
  }

  lemma NoneBefore(s: Bytes, bit: bool, c: nat)
    requires Skipped(s, bit, c) && c >= |s|
    ensures First(s, bit, 0) == 8 * |s|
  {
    hide BitAt, First;
    FirstIs(s, bit, 0, 8 * |s|);
  }

  lemma NonzeroHas(b: bv8) returns (i: nat)
    requires b != 0
    ensures i < 8 && Has(b, Mask(i))
  {
    i := if b & 0x80 != 0 then 0
         else if b & 0x40 != 0 then 1
         else if b & 0x20 != 0 then 2
         else if b & 0x10 != 0 then 3
         else if b & 8 != 0 then 4
         else if b & 4 != 0 then 5
         else if b & 2 != 0 then 6
         else 7;
  }

  lemma NotFullHas(b: bv8) returns (i: nat)
    requires b != 0xff
    ensures i < 8 && !Has(b, Mask(i))
  {
    i := if b & 0x80 == 0 then 0
         else if b & 0x40 == 0 then 1
         else if b & 0x20 == 0 then 2
         else if b & 0x10 == 0 then 3
         else if b & 8 == 0 then 4
         else if b & 4 == 0 then 5
         else if b & 2 == 0 then 6
         else 7;
  }

  /** A byte that cannot be skipped has a wanted bit. */
  lemma WantedIn(b: bv8, bit: bool) returns (i: nat)
    requires b != SkipByte(bit)
    ensures i < 8 && Has(b, Mask(i)) == bit
  {
    hide Has, Mask;
    if bit {
      i := NonzeroHas(b);
    } else {
      i := NotFullHas(b);
    }
  }

  /** The scan of the last word finds something: the panic behind it is never reached. */
  lemma SomethingFound(s: Bytes, bit: bool, c: nat) returns (i: nat)
    requires Stopped(s, bit, c) && !(bit && Load(s, c) == ZEROS)
    ensures i < 64 && Has(Load(s, c)[i / 8], Mask(i % 8)) == bit
  {
    hide Has, Mask, SkipByte;
    if !bit && |s| - c < 8 {
      ZeroHas(Mask(0));
      assert Load(s, c)[7] == 0;
      i := 56;
    } else {
      var k: nat := UnskippedByte(s, bit, c);
      var j := WantedIn(Load(s, c)[k], bit);
      i := 8 * k + j;
      assert i / 8 == k && i % 8 == j;
    }
  }

  lemma UnskippedByte(s: Bytes, bit: bool, c: nat) returns (k: nat)
    requires Stopped(s, bit, c) && !(bit && Load(s, c) == ZEROS) && (bit || |s| - c >= 8)
    ensures k < 8 && Load(s, c)[k] != SkipByte(bit)
  {
    if bit {
      k :| 0 <= k < 8 && Load(s, c)[k] != ZEROS[k];
    } else {
      var j :| c <= j < c + 8 && ByteAt(s, j) != SkipByte(bit);
      k := j - c;
    }
  }

  /** The first wanted bit of the word is the answer. */
  lemma FoundAt(s: Bytes, bit: bool, c: nat, i: nat)
    requires Stopped(s, bit, c) && Skipped(s, bit, c) && i < 64 && Has(Load(s, c)[i / 8], Mask(i % 8)) == bit
    requires forall k :: 0 <= k < i ==> Has(Load(s, c)[k / 8], Mask(k % 8)) != bit
    ensures Scan(s, bit) == 8 * c + i
  {
    hide BitAt, Has, Mask, First, Load, AllSkip;
    var p := 8 * c + i;
    WordBit(s, c, i);
    forall q | 0 <= q < p
      ensures BitAt(s, q) != bit
    {
      if q >= 8 * c {
        WordBit(s, c, q - 8 * c);
      }
    }
    EndIsZero(s);
    assert p <= 8 * |s| by {
      if p > 8 * |s| && bit {
        BehindIsZero(s, p);
      }
    }
    FirstIs(s, bit, 0, p);
    if p == 8 * |s| {
      assert !bit;
    }
  }

  lemma BehindIsZero(s: Bytes, p: nat)
    requires p >= 8 * |s|
    ensures !BitAt(s, p)
  {
    ZeroHas(Mask(p % 8));
  }

  lemma EndIsZero(s: Bytes)
    ensures !BitAt(s, 8 * |s|)
  {
    BehindIsZero(s, 8 * |s|);
  }
}
