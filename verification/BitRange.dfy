/** bitops.c: BITCOUNT over a range of bytes or bits. */
module BitRange {
  import opened Options
  import opened Bits
  import opened Popcount

  // ----- ranges -----

  /** The arguments start and end, and whether they count bits. */
  datatype Range = Range(start: int, end: int, isBit: bool)

  function Total(s: Bytes, isBit: bool): nat {
    if isBit then 8 * |s| else |s|
  }

  /** A negative index counts from the end, and stops at the beginning. */
  function Index(i: int, total: nat): nat {
    if i >= 0 then i else if total + i < 0 then 0 else total + i
  }

  function Last(i: int, total: nat): int {
    if Index(i, total) >= total then total - 1 else Index(i, total)
  }

  /** The bits of the clamped range: from Low(…) up to, and without, High(…). */
  function LowBit(s: Bytes, r: Range): nat {
    var a := Index(r.start, Total(s, r.isBit));
    if r.isBit then a else 8 * a
  }

  function HighBit(s: Bytes, r: Range): int {
    var b := Last(r.end, Total(s, r.isBit)) + 1;
    if r.isBit then b else 8 * b
  }

  /** Indexes from 0 are taken as they are, -1 is the last one and so on, and what lies outside is
      cut off: 0 to -1 is the whole string. */
  lemma RangeMeaning(s: Bytes, r: Range)
    ensures LowBit(s, Range(0, -1, r.isBit)) == 0
    ensures s != [] ==> HighBit(s, Range(0, -1, r.isBit)) == 8 * |s|
    ensures var n: int, unit: int := Total(s, r.isBit), if r.isBit then 1 else 8;
            && (0 <= r.start ==> LowBit(s, r) == unit * r.start)
            && (-n <= r.start < 0 ==> LowBit(s, r) == unit * (n + r.start))
            && (r.start < -n ==> LowBit(s, r) == 0)
            && (0 <= r.end < n ==> HighBit(s, r) == unit * (r.end + 1))
            && (-n <= r.end < 0 ==> HighBit(s, r) == unit * (n + r.end + 1))
            && (r.end < -n && s != [] ==> HighBit(s, r) == unit)
            && (r.end >= n ==> HighBit(s, r) == 8 * |s|)
  {
  }

  predicate Empty(s: Bytes, r: Range) {
    Index(r.start, Total(s, r.isBit)) > Last(r.end, Total(s, r.isBit))
  }

  /** The conversion of negative indexes, as both commands do it. */
  method Clamp(start0: int, end0: int, totlen: nat) returns (start: nat, end: int)
    ensures start == Index(start0, totlen) && end == Last(end0, totlen) && -1 <= end < totlen
  {
    var a, b := start0, end0;
    if a < 0 {
      a := totlen + a;
    }
    if b < 0 {
      b := totlen + b;
    }
    if a < 0 {
      a := 0;
    }
    if b < 0 {
      b := 0;
    }
    if b >= totlen {
      b := totlen - 1;
    }
    return a, b;
  }

  // ----- edge masks -----

  /** The bits before bit k of a byte. */
  function FirstMask(k: nat): bv8
    requires k < 8
  {
    if k == 0 then 0
    else if k == 1 then 0x80
    else if k == 2 then 0xC0
    else if k == 3 then 0xE0
    else if k == 4 then 0xF0
    else if k == 5 then 0xF8
    else if k == 6 then 0xFC
    else 0xFE
  }

  /** The bits behind bit k of a byte. */
  function LastMask(k: nat): bv8
    requires k < 8
  {
    if k == 0 then 0x7F
    else if k == 1 then 0x3F
    else if k == 2 then 0x1F
    else if k == 3 then 0x0F
    else if k == 4 then 7
    else if k == 5 then 3
    else if k == 6 then 1
    else 0
  }

  lemma FirstMaskHas(k: nat, i: nat)
    requires k < 8 && i < 8
    ensures Has(FirstMask(k), Mask(i)) <==> i < k
    ensures FirstMask(k) == 0 <==> k == 0
  {
  }

  lemma LastMaskHas(k: nat, i: nat)
    requires k < 8 && i < 8
    ensures Has(LastMask(k), Mask(i)) <==> i > k
    ensures LastMask(k) == 0 <==> k == 7
  {
  }

  // ----- counting bit by bit -----

  /** How many bits from lo up to, and without, hi are set. */
  function CountBits(s: Bytes, lo: nat, hi: nat): nat
    requires lo <= hi
  {
    if lo == hi then 0 else CountBits(s, lo, hi - 1) + if BitAt(s, hi - 1) then 1 else 0
  }

  lemma {:induction false} CountSplit(s: Bytes, lo: nat, mid: nat, hi: nat)
    requires lo <= mid <= hi
    ensures CountBits(s, lo, hi) == CountBits(s, lo, mid) + CountBits(s, mid, hi)
    decreases hi - mid
  {
    hide BitAt;
    if mid < hi {
      CountSplit(s, lo, mid, hi - 1);
    }
  }

  /** The ones of a byte from bit i up to, and without, bit k. */
  function PartOnes(b: bv8, i: nat, k: nat): nat
    requires i <= k <= 8
  {
    if i == k then 0 else PartOnes(b, i, k - 1) + One(b, Mask(k - 1))
  }

  lemma {:induction false} PartIsCount(s: Bytes, j: nat, i: nat, k: nat)
    requires i <= k <= 8
    ensures CountBits(s, 8 * j + i, 8 * j + k) == PartOnes(ByteAt(s, j), i, k)
    decreases k - i
  {
    hide Has, Mask, ByteAt;
    if i < k {
      PartIsCount(s, j, i, k - 1);
      BitInByte(s, j, k - 1);
    }
  }

  lemma PartNext(b: bv8, k: nat)
    requires k < 8
    ensures PartOnes(b, 0, k + 1) == PartOnes(b, 0, k) + One(b, Mask(k)) && PartOnes(b, 0, 0) == 0
  {
  }

  lemma OnesIsPart(b: bv8)
    ensures Ones(b) == PartOnes(b, 0, 8)
  {
    hide One, PartOnes;
    PartNext(b, 0);
    PartNext(b, 1);
    PartNext(b, 2);
    PartNext(b, 3);
    PartNext(b, 4);
    PartNext(b, 5);
    PartNext(b, 6);
    PartNext(b, 7);
  }

  lemma {:induction false} PartSplit(b: bv8, i: nat, j: nat, k: nat)
    requires i <= j <= k <= 8
    ensures PartOnes(b, i, k) == PartOnes(b, i, j) + PartOnes(b, j, k)
    decreases k - j
  {
    hide One, Mask;
    if j < k {
      PartSplit(b, i, j, k - 1);
    }
  }

  /** A mask keeps the part it covers, and clears the part it does not. */
  lemma {:induction false} MaskedPart(b: bv8, m: bv8, i: nat, k: nat, keep: bool)
    requires i <= k <= 8 && forall n :: i <= n < k ==> Has(m, Mask(n)) == keep
    ensures PartOnes(Both(b, m), i, k) == if keep then PartOnes(b, i, k) else 0
    decreases k - i
  {
    hide Both, Has, Mask;
    if i < k {
      MaskedPart(b, m, i, k - 1, keep);
      HasAnd(b, m, Mask(k - 1));
    }
  }

  lemma FirstOnes(b: bv8, f: nat)
    requires f < 8
    ensures Ones(Both(b, FirstMask(f))) == PartOnes(b, 0, f)
  {
    hide Both, Has, Mask, FirstMask, Ones, PartOnes;
    var m := FirstMask(f);
    OnesIsPart(Both(b, m));
    PartSplit(Both(b, m), 0, f, 8);
    forall n | 0 <= n < 8
      ensures Has(m, Mask(n)) == (n < f)
    {
      FirstMaskHas(f, n);
    }
    MaskedPart(b, m, 0, f, true);
    MaskedPart(b, m, f, 8, false);
  }

  lemma LastOnes(b: bv8, l: nat)
    requires l < 8
    ensures Ones(Both(b, LastMask(l))) == PartOnes(b, l + 1, 8)
  {
    hide Both, Has, Mask, LastMask, Ones, PartOnes;
    var m := LastMask(l);
    OnesIsPart(Both(b, m));
    PartSplit(Both(b, m), 0, l + 1, 8);
    forall n | 0 <= n < 8
      ensures Has(m, Mask(n)) == (n > l)
    {
      LastMaskHas(l, n);
    }
    MaskedPart(b, m, 0, l + 1, false);
    MaskedPart(b, m, l + 1, 8, true);
  }

  lemma {:induction false} OnesAreCount(s: Bytes, a: nat, b: nat)
    requires a <= b <= |s|
    ensures OnesIn(s[a..b]) == CountBits(s, 8 * a, 8 * b)
    decreases b - a
  {
    hide Ones, OnesIn, CountBits;
    if a == b {
      NoneCounted(s, a);
    } else {
      OnesAreCount(s, a, b - 1);
      OnesSnoc(s, a, b);
      CountSplit(s, 8 * a, 8 * (b - 1), 8 * b);
      ByteCount(s, b - 1);
    }
  }

  lemma NoneCounted(s: Bytes, a: nat)
    requires a <= |s|
    ensures OnesIn(s[a..a]) == 0 && CountBits(s, 8 * a, 8 * a) == 0
  {
  }

  lemma OnesSnoc(s: Bytes, a: nat, b: nat)
    requires a < b <= |s|
    ensures OnesIn(s[a..b]) == OnesIn(s[a..b - 1]) + Ones(s[b - 1])
  {
    hide Ones;
    assert s[a..b][..b - 1 - a] == s[a..b - 1];
  }

  lemma ByteCount(s: Bytes, j: nat)
    requires j < |s|
    ensures CountBits(s, 8 * j, 8 * j + 8) == Ones(s[j])
  {
    hide Ones, CountBits, PartOnes;
    PartIsCount(s, j, 0, 8);
    OnesIsPart(s[j]);
  }

  /** The whole bytes of a range, less what sticks out at its two ends. */
  lemma RangeCount(s: Bytes, a: nat, f: nat, b: nat, l: nat)
    requires a <= b < |s| && f < 8 && l < 8 && 8 * a + f <= 8 * b + l + 1
    ensures CountBits(s, 8 * a + f, 8 * b + l + 1)
            == OnesIn(s[a..b + 1]) - Ones(Both(s[a], FirstMask(f))) - Ones(Both(s[b], LastMask(l)))
  {
    hide Ones, OnesIn, Both, FirstMask, LastMask, CountBits, PartOnes;
    OnesAreCount(s, a, b + 1);
    var lo, hi := 8 * a + f, 8 * b + l + 1;
    CountSplit(s, 8 * a, lo, 8 * (b + 1));
    CountSplit(s, lo, hi, 8 * (b + 1));
    PartIsCount(s, a, 0, f);
    PartIsCount(s, b, l + 1, 8);
    FirstOnes(s[a], f);
    LastOnes(s[b], l);
  }

  // ----- BITCOUNT -----

  /** What a scan of the clamped range counts.  A range that is the wrong way round before it is
      clamped counts nothing. */
  function Counted(s: Bytes, r: Range): nat {
    if (r.start < 0 && r.end < 0 && r.start > r.end) || Empty(s, r) then 0
    else CountBits(s, LowBit(s, r), HighBit(s, r))
  }

  /** bitcountCommand: a missing key counts nothing, no range is the whole string. */
  method BitcountCommand(key: Option<Bytes>, range: Option<Range>, address: nat, usePopcnt: bool) returns (count: int)
    ensures key.None? ==> count == 0
    ensures key.Some? && range.None? ==> count == CountBits(key.value, 0, 8 * |key.value|)
    ensures key.Some? && range.Some? ==> count == Counted(key.value, range.value)
  {
    hide Ones, OnesIn, CountBits, FirstMask, LastMask, Both, Index, Last;
    var p := if key.None? then [] else key.value;
    var start, end := 0, |p| - 1;
    var firstMask, lastMask: bv8 := 0, 0;
    ghost var f, l := 0, 7;
    Whole(p);
    if range.Some? {
      var r := range.value;
      start, end := r.start, r.end;
      var totlen := |p|;
      if start < 0 && end < 0 && start > end {
        return 0;
      }
      if r.isBit {
        totlen := 8 * |p|;
      }
      start, end := Clamp(start, end, totlen);
      if r.isBit && start <= end {
        firstMask := FirstMask(start % 8);
        lastMask := LastMask(end % 8);
        f, l := start % 8, end % 8;
        start, end := start / 8, end / 8;
      }
    }
    if key.None? {
      return 0;
    }
    if start > end {
      return 0;
    }
    count := CountRange(p, start, end, firstMask, lastMask, f, l, address, usePopcnt);
  }

  lemma Whole(p: Bytes)
    ensures FirstMask(0) == 0 && LastMask(7) == 0 && CountBits(p, 0, 0) == 0
  {
  }

  /** The count once the range is known. */
  method CountRange(p: Bytes, start: nat, end: nat, firstMask: bv8, lastMask: bv8, ghost f: nat, ghost l: nat,
                    address: nat,
                    usePopcnt: bool) returns (count: int)
    requires start <= end < |p| && f < 8 && l < 8 && 8 * start + f <= 8 * end + l + 1
    requires firstMask == FirstMask(f) && lastMask == LastMask(l)
    ensures count == CountBits(p, 8 * start + f, 8 * end + l + 1)
  {
    hide Ones, OnesIn, CountBits, FirstMask, LastMask, Both;
    count := RedisPopcount(p[start..end + 1], address + start, usePopcnt);
    RangeCount(p, start, f, end, l);
    NoMask(p[start], p[end], f, l);
    if firstMask != 0 || lastMask != 0 {
      var firstlast: Bytes := [if firstMask != 0 then Both(p[start], firstMask) else 0,
                               if lastMask != 0 then Both(p[end], lastMask) else 0];
      var out := RedisPopcount(firstlast, 0, usePopcnt);
      TwoOnes(firstlast[0], firstlast[1]);
      count := count - out;
    }
  }

  lemma NoMask(a: bv8, b: bv8, f: nat, l: nat)
    requires f < 8 && l < 8
    ensures FirstMask(f) == 0 ==> Ones(Both(a, FirstMask(f))) == 0
    ensures LastMask(l) == 0 ==> Ones(Both(b, LastMask(l))) == 0
    ensures Ones(0) == 0
  {
    hide Ones, FirstMask, LastMask;
    ZeroOnes(a, b);
  }

  lemma ZeroOnes(a: bv8, b: bv8)
    ensures Both(a, 0) == 0 && Both(b, 0) == 0 && Ones(0) == 0
  {
  }

  lemma TwoOnes(a: bv8, b: bv8)
    ensures OnesIn([a, b]) == Ones(a) + Ones(b)
  {
    hide Ones, OnesIn;
    var s: Bytes := [a, b];
    EmptyOnes(s);
    OnesInNext(s, 0);
    OnesInNext(s, 1);
    assert s[..2] == s;
  }
}
