/** bitops.c: BITPOS over a range of bytes or bits. */
module BitposCommand {
  import opened Options
  import opened Bits
  import opened Bitpos
  import opened BitRange

  /** No range, a start only, or a start and an end. */
  datatype Where = Everywhere | From(start: int) | Between(range: Range)

  /** No bit from lo up to, and without, hi is wanted. */
  predicate NoneIn(s: Bytes, bit: bool, lo: nat, hi: nat) {
    forall q :: lo <= q < hi ==> BitAt(s, q) != bit
  }

  /** The first wanted bit from lo on, or hi. */
  function FirstIn(s: Bytes, bit: bool, lo: nat, hi: nat): (r: nat)
    requires lo <= hi
    ensures lo <= r <= hi && (r < hi ==> BitAt(s, r) == bit) && NoneIn(s, bit, lo, r)
    decreases hi - lo
  {
    if lo == hi || BitAt(s, lo) == bit then lo else FirstIn(s, bit, lo + 1, hi)
  }

  lemma FirstInIs(s: Bytes, bit: bool, lo: nat, hi: nat, r: nat)
    requires lo <= r <= hi && NoneIn(s, bit, lo, r) && (r < hi ==> BitAt(s, r) == bit)
    ensures FirstIn(s, bit, lo, hi) == r
  {
    hide BitAt, FirstIn;
  }

  function Low(s: Bytes, w: Where): nat {
    match w
    case Everywhere => 0
    case From(start) => 8 * Index(start, |s|)
    case Between(r) => LowBit(s, r)
  }

  function High(s: Bytes, w: Where): int {
    match w
    case Everywhere | From(_) => 8 * |s|
    case Between(r) => HighBit(s, r)
  }

  /** What a scan of the clamped range answers.  An empty range has neither a one nor a zero; zeros
      follow the string only if no end is given. */
  function Found(s: Bytes, bit: bool, w: Where): int {
    var lo, hi := Low(s, w), High(s, w);
    if hi <= lo then -1
    else
      var r := FirstIn(s, bit, lo, hi);
      if r < hi || (!bit && !w.Between?) then r else -1
  }

  // ----- searching in pieces -----

  /** Bits i up to, and without, k of the byte t are those of byte j of the string; its other bits
      are not wanted. */
  predicate Covers(s: Bytes, j: nat, t: bv8, bit: bool, i: nat, k: nat) {
    forall n :: 0 <= n < 8 ==> Has(t, Mask(n)) == if i <= n < k then Has(ByteAt(s, j), Mask(n)) else !bit
  }

  lemma OneByte(t: bv8, n: nat)
    requires n < 8
    ensures BitAt([t], n) == Has(t, Mask(n))
  {
  }

  /** A search in one byte. */
  lemma ByteScan(s: Bytes, j: nat, t: bv8, bit: bool, i: nat, k: nat)
    requires i <= k <= 8 && Covers(s, j, t, bit, i, k)
    ensures var r := First([t], bit, 0);
            && (r < 8 ==> i <= r < k && BitAt(s, 8 * j + r) == bit && NoneIn(s, bit, 8 * j + i, 8 * j + r))
            && (r == 8 ==> NoneIn(s, bit, 8 * j + i, 8 * j + k))
            && Scan([t], bit) == if r == 8 && bit then -1 else r
  {
    hide BitAt, Has, Mask, ByteAt, First;
    var r := First([t], bit, 0);
    forall n | 0 <= n < 8
      ensures BitAt([t], n) == Has(t, Mask(n)) && BitAt(s, 8 * j + n) == Has(ByteAt(s, j), Mask(n))
    {
      OneByte(t, n);
      BitInByte(s, j, n);
    }
    forall q | 8 * j + i <= q < 8 * j + (if r < 8 then r else k)
      ensures BitAt(s, q) != bit
    {
      var n := q - 8 * j;
      assert BitAt([t], n) == Has(t, Mask(n)) && BitAt(s, 8 * j + n) == Has(ByteAt(s, j), Mask(n));
    }
  }

  lemma SubBit(s: Bytes, a: nat, n: nat, q: nat)
    requires a + n <= |s| && q < 8 * n
    ensures BitAt(s[a..a + n], q) == BitAt(s, 8 * a + q)
  {
    assert (8 * a + q) / 8 == a + q / 8 && (8 * a + q) % 8 == q % 8;
  }

  /** A search in whole bytes. */
  lemma SubScan(s: Bytes, a: nat, n: nat, bit: bool)
    requires a + n <= |s|
    ensures var r := First(s[a..a + n], bit, 0);
            && (r < 8 * n ==> BitAt(s, 8 * a + r) == bit)
            && NoneIn(s, bit, 8 * a, 8 * a + r)
            && Scan(s[a..a + n], bit) == if r == 8 * n && bit then -1 else r
  {
    hide BitAt, First;
    var t := s[a..a + n];
    var r := First(t, bit, 0);
    forall q | 8 * a <= q < 8 * a + r
      ensures BitAt(s, q) != bit
    {
      SubBit(s, a, n, q - 8 * a);
    }
    if r < 8 * n {
      SubBit(s, a, n, r);
    }
  }

  /** The masked first or last byte. */
  function Masked(b: bv8, m: bv8, bit: bool): bv8 {
    if bit then Both(b, Flip(m)) else Either(b, m)
  }

  lemma MaskedHas(b: bv8, m: bv8, bit: bool, n: nat)
    requires n < 8
    ensures Has(Masked(b, m, bit), Mask(n)) == if Has(m, Mask(n)) then !bit else Has(b, Mask(n))
  {
    hide Both, Flip, Either, Has, Mask;
    HasNot(m, Mask(n));
    HasAnd(b, Flip(m), Mask(n));
    HasOr(b, m, Mask(n));
  }

  lemma FirstCovers(s: Bytes, j: nat, f: nat, bit: bool)
    requires f < 8
    ensures Covers(s, j, Masked(ByteAt(s, j), FirstMask(f), bit), bit, f, 8)
  {
    hide Masked, Has, Mask, FirstMask, ByteAt;
    forall n | 0 <= n < 8
      ensures Has(Masked(ByteAt(s, j), FirstMask(f), bit), Mask(n))
              == if f <= n < 8 then Has(ByteAt(s, j), Mask(n)) else !bit
    {
      MaskedHas(ByteAt(s, j), FirstMask(f), bit, n);
      FirstMaskHas(f, n);
    }
  }

  lemma LastCovers(s: Bytes, j: nat, t: bv8, i: nat, l: nat, bit: bool)
    requires l < 8 && Covers(s, j, t, bit, i, 8)
    ensures Covers(s, j, Masked(t, LastMask(l), bit), bit, i, l + 1)
  {
    hide Masked, Has, Mask, LastMask, ByteAt;
    forall n | 0 <= n < 8
      ensures Has(Masked(t, LastMask(l), bit), Mask(n)) == if i <= n < l + 1 then Has(ByteAt(s, j), Mask(n)) else !bit
    {
      MaskedHas(t, LastMask(l), bit, n);
      LastMaskHas(l, n);
    }
  }

  lemma PlainCovers(s: Bytes, j: nat, bit: bool)
    ensures Covers(s, j, ByteAt(s, j), bit, 0, 8)
  {
  }

  // ----- the command -----

  /** What is answered for the range from lo up to, and without, hi. */
  function Answer(s: Bytes, bit: bool, lo: nat, hi: nat, endGiven: bool): int
    requires lo <= hi
  {
    var r := FirstIn(s, bit, lo, hi);
    if r < hi || (!bit && !endGiven) then r else -1
  }

  /** The end of bitposCommand: q is relative to byte `at`, and `bytes` are left to search. */
  function Finish(q: int, at: nat, bytes: nat, bit: bool, endGiven: bool): int {
    if endGiven && !bit && q == 8 * bytes then -1 else if q != -1 then q + 8 * at else -1
  }

  lemma FinishFound(s: Bytes, bit: bool, lo: nat, hi: nat, endGiven: bool, q: nat, at: nat, bytes: nat)
    requires q < 8 * bytes && lo <= 8 * at + q < hi && NoneIn(s, bit, lo, 8 * at + q) && BitAt(s, 8 * at + q) == bit
    ensures Finish(q, at, bytes, bit, endGiven) == Answer(s, bit, lo, hi, endGiven)
  {
    hide BitAt, FirstIn, NoneIn;
    FirstInIs(s, bit, lo, hi, 8 * at + q);
  }

  lemma FinishNone(s: Bytes, bit: bool, lo: nat, hi: nat, endGiven: bool, q: int, at: nat, bytes: nat)
    requires lo <= hi && NoneIn(s, bit, lo, hi) && q == (if bit then -1 else 8 * bytes)
    requires endGiven || hi == 8 * (at + bytes)
    ensures Finish(q, at, bytes, bit, endGiven) == Answer(s, bit, lo, hi, endGiven)
  {
    hide BitAt, FirstIn, NoneIn;
    FirstInIs(s, bit, lo, hi, hi);
  }

  lemma Joined(s: Bytes, bit: bool, lo: nat, mid: nat, hi: nat)
    requires NoneIn(s, bit, lo, mid) && NoneIn(s, bit, mid, hi)
    ensures NoneIn(s, bit, lo, hi)
  {
    hide BitAt;
  }

  /** The first byte of a range that starts inside it. */
  method FirstByte(p: Bytes, start: nat, end: nat, f: nat, l: nat, bit: bool, ghost endGiven: bool) returns (q: int)
    requires start <= end < |p| && 0 < f < 8 && l < 8 && 8 * start + f < 8 * end + l + 1
    ensures var lo, hi, bytes := 8 * start + f, 8 * end + l + 1, end - start + 1;
            && (bytes == 1 || (q != -1 && q != 8) ==> endGiven ==>
                  Finish(q, start, bytes, bit, endGiven) == Answer(p, bit, lo, hi, endGiven))
            && (bytes > 1 && (q == -1 || q == 8) ==> NoneIn(p, bit, lo, 8 * (start + 1)))
  {
    hide BitAt, FirstIn, NoneIn, Masked, FirstMask, LastMask, Covers, First, Scan;
    ghost var lo, hi := 8 * start + f, 8 * end + l + 1;
    var bytes := end - start + 1;
    FirstCovers(p, start, f, bit);
    LastMaskHas(l, 0);
    var t := Masked(p[start], FirstMask(f), bit);
    ghost var k := 8;
    if LastMask(l) != 0 && bytes == 1 {
      LastCovers(p, start, t, f, l, bit);
      t := Masked(t, LastMask(l), bit);
      k := l + 1;
    }
    q := RedisBitpos([t], 0, bit);
    ByteScan(p, start, t, bit, f, k);
    if 0 <= q < 8 {
      if endGiven {
        FinishFound(p, bit, lo, hi, endGiven, q, start, bytes);
      }
    } else if bytes == 1 && endGiven {
      FinishNone(p, bit, lo, hi, endGiven, q, start, bytes);
    }
  }

  /** The last byte of a range that ends inside it. */
  method LastByte(p: Bytes, end: nat, l: nat, bit: bool, ghost lo: nat, ghost endGiven: bool) returns (q: int)
    requires end < |p| && l < 8 && lo <= 8 * end && NoneIn(p, bit, lo, 8 * end) && endGiven
    ensures Finish(q, end, 1, bit, endGiven) == Answer(p, bit, lo, 8 * end + l + 1, endGiven)
  {
    hide BitAt, FirstIn, NoneIn, Masked, LastMask, Covers, First, Scan;
    ghost var hi := 8 * end + l + 1;
    PlainCovers(p, end, bit);
    LastCovers(p, end, p[end], 0, l, bit);
    var t := Masked(p[end], LastMask(l), bit);
    q := RedisBitpos([t], 0, bit);
    ByteScan(p, end, t, bit, 0, l + 1);
    if 0 <= q < 8 {
      Joined(p, bit, lo, 8 * end, 8 * end + q);
      FinishFound(p, bit, lo, hi, endGiven, q, end, 1);
    } else {
      Joined(p, bit, lo, 8 * end, hi);
      FinishNone(p, bit, lo, hi, endGiven, q, end, 1);
    }
  }

  /** The whole bytes between. */
  method MiddleBytes(p: Bytes, at: nat, bytes: nat, cur: nat, bit: bool, address: nat, ghost lo: nat, ghost hi: nat,
                     ghost endGiven: bool) returns (q: int)
    requires 0 < cur <= bytes && at + bytes <= |p| && lo <= 8 * at && 8 * (at + cur) <= hi && NoneIn(p, bit, lo, 8 * at)
    requires cur == bytes ==> hi == 8 * (at + bytes)
    ensures cur == bytes || (q != -1 && q != 8 * cur) ==>
              Finish(q, at, bytes, bit, endGiven) == Answer(p, bit, lo, hi, endGiven)
    ensures q == -1 || q == 8 * cur ==> NoneIn(p, bit, lo, 8 * (at + cur))
  {
    hide BitAt, FirstIn, NoneIn, First, Scan;
    q := RedisBitpos(p[at..at + cur], address + at, bit);
    SubScan(p, at, cur, bit);
    ghost var r := First(p[at..at + cur], bit, 0);
    Joined(p, bit, lo, 8 * at, 8 * at + r);
    if r < 8 * cur {
      FinishFound(p, bit, lo, hi, endGiven, r, at, bytes);
    } else if cur == bytes {
      FinishNone(p, bit, lo, hi, endGiven, q, at, bytes);
    }
  }

  /** The search once the range is known: f and l are the bits of the first and last byte where it
      starts and ends. */
  method SearchRange(p: Bytes, start: nat, end: nat, f: nat, l: nat, bit: bool, endGiven: bool, address: nat)
      returns (pos: int)
    requires start <= end < |p| && f < 8 && l < 8 && 8 * start + f < 8 * end + l + 1
    requires endGiven || (f == 0 && l == 7)
    ensures pos == Answer(p, bit, 8 * start + f, 8 * end + l + 1, endGiven)
  {
    hide BitAt, FirstIn, NoneIn, Answer, Finish, FirstMask, LastMask;
    ghost var lo, hi := 8 * start + f, 8 * end + l + 1;
    var at, bytes := start, end - start + 1;
    FirstMaskHas(f, 0);
    LastMaskHas(l, 0);
    NoneYet(p, bit, lo);
    if FirstMask(f) != 0 {
      var q := FirstByte(p, start, end, f, l, bit, endGiven);
      if bytes == 1 || (q != -1 && q != 8) {
        return Finish(q, at, bytes, bit, endGiven);
      }
      at, bytes := at + 1, bytes - 1;
    }
    var cur := bytes - if LastMask(l) != 0 then 1 else 0;
    if cur > 0 {
      var q := MiddleBytes(p, at, bytes, cur, bit, address, lo, hi, endGiven);
      if bytes == cur || (q != -1 && q != 8 * cur) {
        return Finish(q, at, bytes, bit, endGiven);
      }
      at, bytes := at + cur, bytes - cur;
    }
    var q := LastByte(p, end, l, bit, lo, endGiven);
    return Finish(q, at, bytes, bit, endGiven);
  }

  lemma NoneYet(s: Bytes, bit: bool, lo: nat)
    ensures NoneIn(s, bit, lo, lo)
  {
  }

  /** bitposCommand. */
  method Command(key: Option<Bytes>, bit: bool, w: Where, address: nat) returns (pos: int)
    ensures key.None? ==> pos == if bit then -1 else 0
    ensures key.Some? ==> pos == Found(key.value, bit, w)
  {
    hide FirstIn, Index, Last;
    var p := if key.None? then [] else key.value;
    var start, end, endGiven, f, l := 0, |p| - 1, false, 0, 7;
    if !w.Everywhere? {
      var isBit := w.Between? && w.range.isBit;
      endGiven := w.Between?;
      var totlen := if isBit then 8 * |p| else |p|;
      start, end := Clamp(if w.From? then w.start else w.range.start, if w.From? then |p| - 1 else w.range.end, totlen);
      LastOfAll(|p|);
      if isBit && start <= end {
        f, l := start % 8, end % 8;
        start, end := start / 8, end / 8;
      }
    }
    if key.None? {
      return if bit then -1 else 0;
    }
    if start > end {
      return -1;
    }
    pos := SearchRange(p, start, end, f, l, bit, endGiven, address);
  }

  lemma LastOfAll(n: nat)
    ensures Last(n - 1, n) == n - 1
  {
  }
}
