/** bitops.c: redisPopcount, with its packed lanes.

    The masks of the lanes work on 32-bit vectors; the sums of words, the multiplication and the
    last shift are written as arithmetic modulo 2^32.
  */
module Popcount {
  import opened Bits

  const WORD: nat := 0x1_0000_0000

  // ----- one word -----

  /** Four bytes of memory as a 32-bit word. */
  function Pack(a: bv8, b: bv8, c: bv8, d: bv8): bv32 {
    (a as bv32) | ((b as bv32) << 8) | ((c as bv32) << 16) | ((d as bv32) << 24)
  }

  /** The three steps that turn each byte of a word into its number of ones. */
  function Lanes(x: bv32): bv32 {
    var pairs := x - ((x >> 1) & 0x55555555);
    var nibbles := (pairs & 0x33333333) + ((pairs >> 2) & 0x33333333);
    (nibbles + (nibbles >> 4)) & 0x0F0F0F0F
  }

  /** The number of ones of a byte, as a byte. */
  function P(b: bv8): bv8 {
    (b & 1) + ((b >> 1) & 1) + ((b >> 2) & 1) + ((b >> 3) & 1) + ((b >> 4) & 1) + ((b >> 5) & 1) + ((b >> 6) & 1)
      + ((b >> 7) & 1)
  }

  /** The number of ones of the low byte of a word. */
  function Low(x: bv32): bv32 {
    (x & 1) + ((x >> 1) & 1) + ((x >> 2) & 1) + ((x >> 3) & 1) + ((x >> 4) & 1) + ((x >> 5) & 1) + ((x >> 6) & 1)
      + ((x >> 7) & 1)
  }

  lemma LanesCount(x: bv32)
    ensures Lanes(x) == Low(x) | (Low(x >> 8) << 8) | (Low(x >> 16) << 16) | (Low(x >> 24) << 24)
  {
  }

  lemma LowOfPack(a: bv8, b: bv8, c: bv8, d: bv8)
    ensures var x := Pack(a, b, c, d);
            && Low(x) == Low(a as bv32) && Low(x >> 8) == Low(b as bv32)
            && Low(x >> 16) == Low(c as bv32) && Low(x >> 24) == Low(d as bv32)
  {
  }

  lemma LowIsP(b: bv8)
    ensures Low(b as bv32) == P(b) as bv32
  {
  }

  lemma LanesOfPack(a: bv8, b: bv8, c: bv8, d: bv8)
    ensures Lanes(Pack(a, b, c, d)) == Pack(P(a), P(b), P(c), P(d))
  {
    hide Lanes, Low, P;
    LanesCount(Pack(a, b, c, d));
    LowOfPack(a, b, c, d);
    LowIsP(a);
    LowIsP(b);
    LowIsP(c);
    LowIsP(d);
  }

  lemma PIsOnes(b: bv8)
    ensures P(b) as int == Ones(b) && P(b) <= 8
  {
  }

  lemma PackValue(a: bv8, b: bv8, c: bv8, d: bv8)
    requires a <= 8 && b <= 8 && c <= 8 && d <= 8
    ensures Pack(a, b, c, d) as int == a as int + 0x100 * (b as int) + 0x1_0000 * (c as int) + 0x100_0000 * (d as int)
  {
  }

  lemma OnesAtMost8(b: bv8)
    ensures Ones(b) <= 8
  {
  }

  /** What the lane steps make of four bytes. */
  function LaneWord(a: bv8, b: bv8, c: bv8, d: bv8): nat {
    Lanes(Pack(a, b, c, d)) as nat
  }

  lemma LanesValue(a: bv8, b: bv8, c: bv8, d: bv8)
    ensures LaneWord(a, b, c, d) == Ones(a) + 0x100 * Ones(b) + 0x1_0000 * Ones(c) + 0x100_0000 * Ones(d)
  {
    hide Lanes, Pack, P, Ones;
    LanesOfPack(a, b, c, d);
    PIsOnes(a);
    PIsOnes(b);
    PIsOnes(c);
    PIsOnes(d);
    PackValue(P(a), P(b), P(c), P(d));
  }

  // ----- seven words -----

  /** The ones in one lane of the first `k` words. */
  function LaneOnes(s: Bytes, k: nat, lane: nat): (n: nat)
    requires lane < 4 && 4 * k <= |s|
  {
    if k == 0 then 0 else LaneOnes(s, k - 1, lane) + Ones(s[4 * (k - 1) + lane])
  }

  lemma {:induction false} LaneBound(s: Bytes, k: nat, lane: nat)
    requires lane < 4 && 4 * k <= |s|
    ensures LaneOnes(s, k, lane) <= 8 * k
  {
    hide Ones;
    if k > 0 {
      LaneBound(s, k - 1, lane);
      OnesAtMost8(s[4 * (k - 1) + lane]);
    }
  }

  lemma LaneNext(s: Bytes, k: nat, i: nat)
    requires 4 * k + 4 <= |s| && i == 4 * k
    ensures LaneOnes(s, k + 1, 0) == LaneOnes(s, k, 0) + Ones(s[i])
    ensures LaneOnes(s, k + 1, 1) == LaneOnes(s, k, 1) + Ones(s[i + 1])
    ensures LaneOnes(s, k + 1, 2) == LaneOnes(s, k, 2) + Ones(s[i + 2])
    ensures LaneOnes(s, k + 1, 3) == LaneOnes(s, k, 3) + Ones(s[i + 3])
  {
    hide Ones;
  }

  lemma FourNext(s: Bytes, i: nat)
    requires i + 4 <= |s|
    ensures OnesIn(s[..i + 4]) == OnesIn(s[..i]) + Ones(s[i]) + Ones(s[i + 1]) + Ones(s[i + 2]) + Ones(s[i + 3])
  {
    hide Ones, OnesIn;
    OnesInNext(s, i);
    OnesInNext(s, i + 1);
    OnesInNext(s, i + 2);
    OnesInNext(s, i + 3);
  }

  lemma {:induction false} LanesAreAll(s: Bytes, k: nat)
    requires 4 * k <= |s|
    ensures OnesIn(s[..4 * k]) == LaneOnes(s, k, 0) + LaneOnes(s, k, 1) + LaneOnes(s, k, 2) + LaneOnes(s, k, 3)
  {
    hide Ones, OnesIn, LaneOnes;
    if k == 0 {
      EmptyOnes(s);
      NoLanes(s);
    } else {
      LanesAreAll(s, k - 1);
      LaneNext(s, k - 1, 4 * (k - 1));
      FourNext(s, 4 * (k - 1));
    }
  }

  lemma NoLanes(s: Bytes)
    ensures LaneOnes(s, 0, 0) == 0 && LaneOnes(s, 0, 1) == 0 && LaneOnes(s, 0, 2) == 0 && LaneOnes(s, 0, 3) == 0
  {
  }

  lemma Remainder(h: int, r: int)
    requires 0 <= r < 0x1_0000_0000
    ensures (0x1_0000_0000 * h + r) % 0x1_0000_0000 == r
  {
  }

  lemma Quotient(t: int, r: int)
    requires 0 <= r < 0x100_0000
    ensures (0x100_0000 * t + r) / 0x100_0000 == t
  {
  }

  /** The multiplication gathers the four lanes in the top byte, and no lane runs over. */
  lemma Gather(a: int, b: int, c: int, d: int)
    requires 0 <= a <= 56 && 0 <= b <= 56 && 0 <= c <= 56 && 0 <= d <= 56
    ensures ((a + 0x100 * b + 0x1_0000 * c + 0x100_0000 * d) * 0x0101_0101 % WORD) / 0x100_0000 == a + b + c + d
  {
    var low := (a + b + c) * 0x1_0000 + (a + b) * 0x100 + a;
    var high := b + c + d + (c + d) * 0x100 + d * 0x1_0000;
    var t := a + b + c + d;
    Remainder(high, 0x100_0000 * t + low);
    Quotient(t, low);
    assert (a + 0x100 * b + 0x1_0000 * c + 0x100_0000 * d) * 0x0101_0101
           == 0x1_0000_0000 * high + (0x100_0000 * t + low);
  }

  /** 28 bytes at a time. */
  method Count28(s: Bytes) returns (bits: nat)
    requires |s| == 28
    ensures bits == OnesIn(s)
  {
    hide Ones, LaneWord, OnesIn, LaneOnes, Total;
    var total: nat := 0;
    NoWords(s);
    for k := 0 to 7
      invariant total == Total(s, k)
    {
      MoreWords(s, k);
      total := (total + LaneWord(s[4 * k], s[4 * k + 1], s[4 * k + 2], s[4 * k + 3])) % WORD;
    }
    TotalIs(s, 7);
    LaneBound(s, 7, 0);
    LaneBound(s, 7, 1);
    LaneBound(s, 7, 2);
    LaneBound(s, 7, 3);
    Gather(LaneOnes(s, 7, 0), LaneOnes(s, 7, 1), LaneOnes(s, 7, 2), LaneOnes(s, 7, 3));
    LanesAreAll(s, 7);
    assert s[..28] == s;
    bits := (total * 0x0101_0101 % WORD) / 0x100_0000;
  }

  /** The sum of the first `k` words. */
  function Total(s: Bytes, k: nat): nat
    requires 4 * k <= |s|
  {
    LaneOnes(s, k, 0) + 0x100 * LaneOnes(s, k, 1) + 0x1_0000 * LaneOnes(s, k, 2) + 0x100_0000 * LaneOnes(s, k, 3)
  }

  lemma TotalIs(s: Bytes, k: nat)
    requires 4 * k <= |s|
    ensures Total(s, k) == LaneOnes(s, k, 0) + 0x100 * LaneOnes(s, k, 1) + 0x1_0000 * LaneOnes(s, k, 2)
            + 0x100_0000 * LaneOnes(s, k, 3)
  {
  }

  lemma NoWords(s: Bytes)
    ensures Total(s, 0) == 0
  {
  }

  /** The sum never leaves the word. */
  lemma MoreWords(s: Bytes, k: nat)
    requires k < 7 && 4 * k + 4 <= |s|
    ensures (Total(s, k) + LaneWord(s[4 * k], s[4 * k + 1], s[4 * k + 2], s[4 * k + 3])) % WORD == Total(s, k + 1)
  {
    hide Ones, LaneWord;
    LanesValue(s[4 * k], s[4 * k + 1], s[4 * k + 2], s[4 * k + 3]);
    LaneBound(s, k + 1, 0);
    LaneBound(s, k + 1, 1);
    LaneBound(s, k + 1, 2);
    LaneBound(s, k + 1, 3);
    assert Total(s, k) + LaneWord(s[4 * k], s[4 * k + 1], s[4 * k + 2], s[4 * k + 3]) == Total(s, k + 1);
  }

  // ----- the table -----

  /** The row of the table `bitsinbyte` for the bytes with the high digit `h`. */
  function TableRow(h: nat): (row: seq<nat>)
    requires h < 16
    ensures |row| == 16
  {
    if h == 0 then [0, 1, 1, 2, 1, 2, 2, 3, 1, 2, 2, 3, 2, 3, 3, 4]
    else if h == 1 then [1, 2, 2, 3, 2, 3, 3, 4, 2, 3, 3, 4, 3, 4, 4, 5]
    else if h == 2 then [1, 2, 2, 3, 2, 3, 3, 4, 2, 3, 3, 4, 3, 4, 4, 5]
    else if h == 3 then [2, 3, 3, 4, 3, 4, 4, 5, 3, 4, 4, 5, 4, 5, 5, 6]
    else if h == 4 then [1, 2, 2, 3, 2, 3, 3, 4, 2, 3, 3, 4, 3, 4, 4, 5]
    else if h == 5 then [2, 3, 3, 4, 3, 4, 4, 5, 3, 4, 4, 5, 4, 5, 5, 6]
    else if h == 6 then [2, 3, 3, 4, 3, 4, 4, 5, 3, 4, 4, 5, 4, 5, 5, 6]
    else if h == 7 then [3, 4, 4, 5, 4, 5, 5, 6, 4, 5, 5, 6, 5, 6, 6, 7]
    else if h == 8 then [1, 2, 2, 3, 2, 3, 3, 4, 2, 3, 3, 4, 3, 4, 4, 5]
    else if h == 9 then [2, 3, 3, 4, 3, 4, 4, 5, 3, 4, 4, 5, 4, 5, 5, 6]
    else if h == 10 then [2, 3, 3, 4, 3, 4, 4, 5, 3, 4, 4, 5, 4, 5, 5, 6]
    else if h == 11 then [3, 4, 4, 5, 4, 5, 5, 6, 4, 5, 5, 6, 5, 6, 6, 7]
    else if h == 12 then [2, 3, 3, 4, 3, 4, 4, 5, 3, 4, 4, 5, 4, 5, 5, 6]
    else if h == 13 then [3, 4, 4, 5, 4, 5, 5, 6, 4, 5, 5, 6, 5, 6, 6, 7]
    else if h == 14 then [3, 4, 4, 5, 4, 5, 5, 6, 4, 5, 5, 6, 5, 6, 6, 7]
    else [4, 5, 5, 6, 5, 6, 6, 7, 5, 6, 6, 7, 6, 7, 7, 8]
  }

  function BitsInByte(b: bv8): nat {
    TableRow((b >> 4) as nat)[(b & 15) as nat]
  }

  /** The number of ones of a hexadecimal digit. */
  function DigitOnes(d: nat): nat
    requires d < 16
  {
    [0, 1, 1, 2, 1, 2, 2, 3, 1, 2, 2, 3, 2, 3, 3, 4][d]
  }

  /** The first row of the table, with n added to each entry. */
  function Shifted(n: nat): (row: seq<nat>)
    ensures |row| == 16
  {
    [n, n + 1, n + 1, n + 2, n + 1, n + 2, n + 2, n + 3, n + 1, n + 2, n + 2, n + 3, n + 2, n + 3, n + 3, n + 4]
  }

  lemma ShiftedOnes(n: nat, l: nat)
    requires l < 16
    ensures Shifted(n)[l] == n + DigitOnes(l)
  {
  }

  lemma RowIsShifted(h: nat)
    requires h < 16
    ensures TableRow(h) == Shifted(DigitOnes(h))
  {
  }

  lemma DigitIsOnes(d: bv8)
    requires d < 16
    ensures DigitOnes(d as nat) == Ones(d)
  {
    PIsOnes(d);
    if d < 4 {
      assert d == 0 || d == 1 || d == 2 || d == 3;
    } else if d < 8 {
      assert d == 4 || d == 5 || d == 6 || d == 7;
    } else if d < 12 {
      assert d == 8 || d == 9 || d == 10 || d == 11;
    } else {
      assert d == 12 || d == 13 || d == 14 || d == 15;
    }
  }

  lemma TwoDigits(b: bv8)
    ensures b >> 4 < 16 && b & 15 < 16 && Ones(b) == Ones(b >> 4) + Ones(b & 15)
  {
  }

  /** Every entry of the table is the number of ones of its index. */
  lemma TableIsOnes(b: bv8)
    ensures BitsInByte(b) == Ones(b)
  {
    hide TableRow, Ones, DigitOnes, Shifted;
    TwoDigits(b);
    DigitIsOnes(b >> 4);
    DigitIsOnes(b & 15);
    RowIsShifted((b >> 4) as nat);
    ShiftedOnes(Ones(b >> 4), (b & 15) as nat);
  }

  // ----- the whole string -----

  /** redisPopcount of the bytes s at an address; `usePopcnt` is whether the processor counts the
      ones of a word itself. */
  method RedisPopcount(s: Bytes, address: nat, usePopcnt: bool) returns (bits: nat)
    ensures bits == OnesIn(s)
  {
    hide Ones, OnesIn, BitsInByte;
    bits := 0;
    var p := 0;
    var align := if usePopcnt then 8 else 4;
    EmptyOnes(s);
    while (address + p) % align != 0 && p < |s|
      invariant p <= |s| && bits == OnesIn(s[..p])
      decreases |s| - p
    {
      OnesInNext(s, p);
      TableIsOnes(s[p]);
      bits := bits + BitsInByte(s[p]);
      p := p + 1;
    }
    if usePopcnt {
      var cnt0, cnt1, cnt2, cnt3: nat := 0, 0, 0, 0;
      ghost var before: nat := bits;
      while |s| - p >= 32
        invariant p <= |s| && before + cnt0 + cnt1 + cnt2 + cnt3 == OnesIn(s[..p]) && bits == before
        decreases |s| - p
      {
        Four(s, p);
        cnt0 := cnt0 + OnesIn(s[p..p + 8]);
        cnt1 := cnt1 + OnesIn(s[p + 8..p + 16]);
        cnt2 := cnt2 + OnesIn(s[p + 16..p + 24]);
        cnt3 := cnt3 + OnesIn(s[p + 24..p + 32]);
        p := p + 32;
      }
      bits := bits + (cnt0 + cnt1 + cnt2 + cnt3);
    } else {
      while |s| - p >= 28
        invariant p <= |s| && bits == OnesIn(s[..p])
        decreases |s| - p
      {
        var n := Count28(s[p..p + 28]);
        Further(s, p, 28);
        bits := bits + n;
        p := p + 28;
      }
    }
    while p < |s|
      invariant p <= |s| && bits == OnesIn(s[..p])
    {
      OnesInNext(s, p);
      TableIsOnes(s[p]);
      bits := bits + BitsInByte(s[p]);
      p := p + 1;
    }
    assert s[..|s|] == s;
  }

  lemma EmptyOnes(s: Bytes)
    ensures OnesIn(s[..0]) == 0
  {
  }

  lemma Further(s: Bytes, p: nat, n: nat)
    requires p + n <= |s|
    ensures OnesIn(s[..p + n]) == OnesIn(s[..p]) + OnesIn(s[p..p + n])
  {
    hide OnesIn;
    assert s[..p + n] == s[..p] + s[p..p + n];
    OnesInConcat(s[..p], s[p..p + n]);
  }

  lemma Four(s: Bytes, p: nat)
    requires p + 32 <= |s|
    ensures OnesIn(s[..p + 32]) == OnesIn(s[..p]) + OnesIn(s[p..p + 8]) + OnesIn(s[p + 8..p + 16])
                                   + OnesIn(s[p + 16..p + 24]) + OnesIn(s[p + 24..p + 32])
  {
    hide OnesIn;
    Further(s, p, 8);
    Further(s, p + 8, 8);
    Further(s, p + 16, 8);
    Further(s, p + 24, 8);
  }
}
