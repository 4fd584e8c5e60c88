/** crcspeed.c: the table-driven CRC-64, eight bytes at a time and in two or three
    interleaved segments whose results are merged by crc64_combine.
  */
module CrcSpeed {
  import opened Words
  import opened CrcReference
  import opened CrcCombine

  // ----- what the tables hold -----

  /** Table k holds, for each byte, the register after that byte and k zero bytes. */
  ghost predicate TablesOk(poly: nat, tables: array2<nat>)
    reads tables
  {
    && tables.Length0 == 8 && tables.Length1 == 256
    && forall k: nat, b: Byte :: k < 8 ==> tables[k, b] == ZeroBits(poly, 8 * (k + 1), b)
  }

  lemma ShlByte(y: nat)
    ensures Shl(y, 8) == 256 * y
  {
    assert Shl(y, 8) == 2 * Shl(y, 7) && Shl(y, 7) == 2 * Shl(y, 6) && Shl(y, 6) == 2 * Shl(y, 5);
    assert Shl(y, 5) == 2 * Shl(y, 4) && Shl(y, 4) == 2 * Shl(y, 3) && Shl(y, 3) == 2 * Shl(y, 2);
    assert Shl(y, 2) == 2 * Shl(y, 1) && Shl(y, 1) == 2 * Shl(y, 0);
  }

  /** A register is its lowest byte XOR the rest, one byte up. */
  lemma LowByte(x: nat)
    ensures x == Xor(x % 256, Shl(x / 256, 8))
  {
    hide Xor;
    ByteFits(x % 256);
    ShlByte(x / 256);
    XorDisjoint(x % 256, x / 256, 8);
  }

  /** Eight zero bits act on the lowest byte and shift the rest down. */
  lemma ZeroByteSplits(poly: nat, x: nat)
    ensures ZeroBits(poly, 8, x) == Xor(ZeroBits(poly, 8, x % 256), x / 256)
  {
    hide Xor, ZeroBits, Shl;
    LowByte(x);
    ZeroBitsXor(poly, 8, x % 256, Shl(x / 256, 8));
    ZeroBitsUnshift(poly, 8, x / 256);
  }

  /** The same for several bytes: what slicing by eight relies on. */
  lemma SliceOne(poly: nat, n: nat, x: nat)
    ensures ZeroBits(poly, 8 * (n + 1), x) == Xor(ZeroBits(poly, 8 * (n + 1), x % 256), ZeroBits(poly, 8 * n, x / 256))
  {
    hide Xor, ZeroBits, Shl;
    assert 8 * n + 8 == 8 * (n + 1);
    ZeroBitsAdd(poly, 8 * n, 8, x);
    ZeroBitsAdd(poly, 8 * n, 8, x % 256);
    ZeroByteSplits(poly, x);
    ZeroBitsXor(poly, 8 * n, ZeroBits(poly, 8, x % 256), x / 256);
  }

  /** XORing a byte leaves the higher bytes alone. */
  lemma XorHigh(c: nat, b: Byte)
    ensures Xor(c, b) / 256 == c / 256
  {
    hide Xor;
    var low := Xor(c % 256, b);
    ByteFits(c % 256);
    ByteFits(b);
    XorBound(c % 256, b, 8);
    calc {
      Xor(c, b);
      { LowByte(c); }
      Xor(Xor(c % 256, Shl(c / 256, 8)), b);
      { XorZero(b); XorSwap(c % 256, Shl(c / 256, 8), b, 0); XorZero(Shl(c / 256, 8)); }
      Xor(low, Shl(c / 256, 8));
      { XorDisjoint(low, c / 256, 8); ShlByte(c / 256); }
      low + 256 * (c / 256);
    }
  }

  /** crcspeed64little_init.  `crcfn(b)` is the CRC of the single byte `b`. */
  method InitTables(poly: nat, crcfn: Byte -> nat, tables: array2<nat>)
    requires tables.Length0 == 8 && tables.Length1 == 256
    requires forall b: Byte :: crcfn(b) == Crc(poly, 0, [b])
    modifies tables
    ensures TablesOk(poly, tables)
  {
    hide Xor, ZeroBits;
    var n := 0;
    while n < 256
      invariant 0 <= n <= 256
      invariant forall b: Byte :: b < n ==> tables[0, b] == ZeroBits(poly, 8, b)
    {
      tables[0, n] := crcfn(n);
      SingleByte(poly, n);
      n := n + 1;
    }
    n := 0;
    while n < 256
      invariant 0 <= n <= 256
      invariant forall b: Byte :: tables[0, b] == ZeroBits(poly, 8, b)
      invariant forall k: nat, b: Byte :: k < 8 && b < n ==> tables[k, b] == ZeroBits(poly, 8 * (k + 1), b)
    {
      var crc := tables[0, n];
      var k := 1;
      while k < 8
        invariant 1 <= k <= 8 && crc == ZeroBits(poly, 8 * k, n)
        invariant forall b: Byte :: tables[0, b] == ZeroBits(poly, 8, b)
        invariant forall j: nat, b: Byte :: j < 8 && b < n ==> tables[j, b] == ZeroBits(poly, 8 * (j + 1), b)
        invariant forall j: nat :: j < k ==> tables[j, n] == ZeroBits(poly, 8 * (j + 1), n)
      {
        ZeroByteSplits(poly, crc);
        ZeroBitsAdd(poly, 8, 8 * k, n);
        assert 8 + 8 * k == 8 * (k + 1);
        crc := Xor(tables[0, crc % 256], crc / 256);
        tables[k, n] := crc;
        k := k + 1;
      }
      n := n + 1;
    }
  }

  lemma SingleByte(poly: nat, b: Byte)
    ensures Crc(poly, 0, [b]) == ZeroBits(poly, 8, b)
  {
    hide ZeroBits;
    XorZero(b);
    assert [b][1..] == [];
  }

  // ----- one byte, and eight bytes -----

  /** The single-byte step: one lookup. */
  method StepByte(poly: nat, tables: array2<nat>, crc: nat, c: Byte) returns (r: nat)
    requires TablesOk(poly, tables) && Fits(poly) && Fits(crc)
    ensures r == Crc(poly, crc, [c]) && Fits(r)
  {
    CrcFits(poly, crc, [c]);
    hide Xor, ZeroBits;
    ZeroByteSplits(poly, Xor(crc, c));
    XorHigh(crc, c);
    r := Xor(tables[0, Xor(crc, c) % 256], crc / 256);
    assert [c][1..] == [];
    assert tables[0, Xor(crc, c) % 256] == ZeroBits(poly, 8 * (0 + 1), Xor(crc, c) % 256);
  }

  /** A little-endian load. */
  function Load(bytes: seq<Byte>): nat {
    if bytes == [] then 0 else bytes[0] + 256 * Load(bytes[1..])
  }

  lemma {:induction false} LoadBound(bytes: seq<Byte>)
    ensures Load(bytes) < Pow2(8 * |bytes|)
  {
    if bytes != [] {
      LoadBound(bytes[1..]);
      Pow2Byte(8 * |bytes[1..]|);
      assert 8 * |bytes| == 8 * |bytes[1..]| + 8;
    }
  }

  lemma Pow2Byte(k: nat)
    ensures Pow2(k + 8) == 256 * Pow2(k)
  {
    assert Pow2(k + 8) == 2 * Pow2(k + 7) && Pow2(k + 7) == 2 * Pow2(k + 6) && Pow2(k + 6) == 2 * Pow2(k + 5);
    assert Pow2(k + 5) == 2 * Pow2(k + 4) && Pow2(k + 4) == 2 * Pow2(k + 3) && Pow2(k + 3) == 2 * Pow2(k + 2);
    assert Pow2(k + 2) == 2 * Pow2(k + 1) && Pow2(k + 1) == 2 * Pow2(k);
  }

  /** Bytes fed one after the other act as one XOR of the whole little-endian word. */
  lemma {:induction false} CrcOfWord(poly: nat, crc: nat, bytes: seq<Byte>)
    ensures Crc(poly, crc, bytes) == ZeroBits(poly, 8 * |bytes|, Xor(crc, Load(bytes)))
    decreases |bytes|
  {
    hide Xor, ZeroBits, Shl;
    if bytes == [] {
      XorZero(crc);
      ZeroBitsNone(poly, crc);
    } else {
      var b, rest := bytes[0], bytes[1..];
      var x, w, n := Xor(crc, b), Load(rest), 8 * |rest|;
      CrcOfWord(poly, ZeroBits(poly, 8, x), rest);
      ZeroBitsUnshift(poly, 8, w);
      ZeroBitsXor(poly, 8, x, Shl(w, 8));
      ZeroBitsAdd(poly, n, 8, Xor(x, Shl(w, 8)));
      XorAssoc(crc, b, Shl(w, 8));
      ByteFits(b);
      XorDisjoint(b, w, 8);
      ShlByte(w);
      assert 8 * |bytes| == n + 8;
    }
  }

  lemma XorLeft(a: nat, b: nat, c: nat, d: nat, e: nat, f: nat, g: nat, h: nat)
    ensures Xor(a, Xor(b, Xor(c, Xor(d, Xor(e, Xor(f, Xor(g, h)))))))
            == Xor(Xor(Xor(Xor(Xor(Xor(Xor(a, b), c), d), e), f), g), h)
  {
    hide Xor;
    var p2, p3, p4, p5 := Xor(a, b), Xor(Xor(a, b), c), Xor(Xor(Xor(a, b), c), d), Xor(Xor(Xor(Xor(a, b), c), d), e);
    XorAssoc(Xor(p5, f), g, h);
    XorAssoc(p5, f, Xor(g, h));
    XorAssoc(p4, e, Xor(f, Xor(g, h)));
    XorAssoc(p3, d, Xor(e, Xor(f, Xor(g, h))));
    XorAssoc(p2, c, Xor(d, Xor(e, Xor(f, Xor(g, h)))));
    XorAssoc(a, b, Xor(c, Xor(d, Xor(e, Xor(f, Xor(g, h))))));
  }

  lemma DropByte(x: nat, k: nat)
    requires x < Pow2(k + 8)
    ensures x / 256 < Pow2(k)
  {
    Pow2Byte(k);
  }

  lemma TopByte(x: nat)
    requires Fits(x)
    ensures x / 256 / 256 / 256 / 256 / 256 / 256 / 256 < 256
  {
    hide Pow2;
    var y := x / 256 / 256 / 256;
    DropByte(x, 56);
    DropByte(x / 256, 48);
    DropByte(x / 256 / 256, 40);
    DropByte(y, 32);
    DropByte(y / 256, 24);
    DropByte(y / 256 / 256, 16);
    DropByte(y / 256 / 256 / 256, 8);
    ByteFits(0);
  }

  /** DO_8_1 and DO_8_2: one load and eight lookups feed eight bytes. */
  method Step8(poly: nat, tables: array2<nat>, crc: nat, bytes: seq<Byte>) returns (r: nat)
    requires TablesOk(poly, tables) && Fits(poly) && Fits(crc)
    requires |bytes| == 8
    ensures r == Crc(poly, crc, bytes) && Fits(r)
  {
    hide Xor, ZeroBits, Pow2, Crc, Load;
    LoadBound(bytes);
    var x0: nat := Xor(crc, Load(bytes));
    XorBound(crc, Load(bytes), 64);
    CrcOfWord(poly, crc, bytes);
    CrcFits(poly, crc, bytes);
    TopByte(x0);
    var x1: nat := x0 / 256;
    var x2: nat := x1 / 256;
    var x3: nat := x2 / 256;
    var x4: nat := x3 / 256;
    var x5: nat := x4 / 256;
    var x6: nat := x5 / 256;
    var x7: nat := x6 / 256;
    var a, b, c, d := tables[7, x0 % 256], tables[6, x1 % 256], tables[5, x2 % 256], tables[4, x3 % 256];
    var e, f, g, h := tables[3, x4 % 256], tables[2, x5 % 256], tables[1, x6 % 256], tables[0, x7];
    r := Xor(Xor(Xor(Xor(Xor(Xor(Xor(a, b), c), d), e), f), g), h);
    SliceOne(poly, 7, x0);
    SliceOne(poly, 6, x1);
    SliceOne(poly, 5, x2);
    SliceOne(poly, 4, x3);
    SliceOne(poly, 3, x4);
    SliceOne(poly, 2, x5);
    SliceOne(poly, 1, x6);
    XorLeft(a, b, c, d, e, f, g, h);
  }

  // ----- the whole function -----

  /** The length of a segment: CRC64_SPLIT rounds down to a multiple of eight. */
  function SegmentLength(len: nat, div: nat): (n: nat)
    requires div > 0
    ensures n % 8 == 0 && n * div <= len
  {
    var n := len / div / 8 * 8;
    assert n <= len / div;
    assert n * div <= len / div * div <= len;
    n
  }

  /** Merging two adjacent segments with crc64_combine. */
  lemma MergeSegments(poly: nat, crc: nat, a: seq<Byte>, b: seq<Byte>)
    ensures Crc(poly, crc, a + b)
            == if |b| == 0 then Crc(poly, crc, a)
               else Xor(ZeroBits(poly, 8 * |b|, Crc(poly, crc, a)), Crc(poly, 0, b))
  {
    hide Xor, ZeroBits;
    CrcConcat(poly, crc, a, b);
    CrcSeed(poly, Crc(poly, crc, a), b);
    if b == [] {
      assert a + b == a;
    }
  }

  /** One more word of the segment that starts at `from`. */
  method Advance(poly: nat, tables: array2<nat>, ghost seed: nat, crc: nat, data: seq<Byte>, from: nat, done: nat)
    returns (r: nat)
    requires TablesOk(poly, tables) && Fits(poly) && Fits(crc)
    requires from + done + 8 <= |data|
    requires crc == Crc(poly, seed, data[from..from + done])
    ensures r == Crc(poly, seed, data[from..from + done + 8]) && Fits(r)
  {
    hide Crc, Pow2;
    var bytes := data[from + done..from + done + 8];
    r := Step8(poly, tables, crc, bytes);
    assert data[from..from + done + 8] == data[from..from + done] + bytes;
    CrcConcat(poly, seed, data[from..from + done], bytes);
  }

  /** The three-lane loop and its two merges. */
  method ThreeSegments(poly: nat, tables: array2<nat>, cache: CombineCache, crc: nat, data: seq<Byte>, from: nat,
                       seg: nat)
    returns (r: nat)
    requires TablesOk(poly, tables) && cache.Valid() && cache.poly == poly && cache.rows != tables
    requires Fits(crc) && Fits(seg) && seg % 8 == 0 && from + 3 * seg <= |data|
    modifies cache.rows
    ensures cache.Valid()
    ensures r == Crc(poly, crc, data[from..from + 3 * seg]) && Fits(r)
  {
    hide Crc, Pow2, Xor, ZeroBits;
    var next2, next3 := from + seg, from + 2 * seg;
    var crc1, crc2, crc3, done := crc, 0, 0, 0;
    assert data[from..from] == data[next2..next2] == data[next3..next3] == [];
    CrcNothing(poly, crc);
    CrcNothing(poly, 0);
    ByteFits(0);
    while done < seg
      invariant 0 <= done <= seg && done % 8 == 0
      invariant cache.Valid() && TablesOk(poly, tables)
      invariant crc1 == Crc(poly, crc, data[from..from + done]) && Fits(crc1)
      invariant crc2 == Crc(poly, 0, data[next2..next2 + done]) && Fits(crc2)
      invariant crc3 == Crc(poly, 0, data[next3..next3 + done]) && Fits(crc3)
    {
      crc1 := Advance(poly, tables, crc, crc1, data, from, done);
      crc2 := Advance(poly, tables, 0, crc2, data, next2, done);
      crc3 := Advance(poly, tables, 0, crc3, data, next3, done);
      done := done + 8;
    }
    ghost var a, b, c := data[from..next2], data[next2..next3], data[next3..next3 + seg];
    MergeSegments(poly, crc, a, b);
    CrcFits(poly, crc, a + b);
    r := cache.Combine(crc1, crc2, seg);
    MergeSegments(poly, crc, a + b, c);
    r := cache.Combine(r, crc3, seg);
    assert a + b + c == data[from..from + 3 * seg];
    CrcFits(poly, crc, a + b + c);
  }

  /** The two-lane loop and its merge. */
  method TwoSegments(poly: nat, tables: array2<nat>, cache: CombineCache, crc: nat, data: seq<Byte>, from: nat,
                     seg: nat)
    returns (r: nat)
    requires TablesOk(poly, tables) && cache.Valid() && cache.poly == poly && cache.rows != tables
    requires Fits(crc) && Fits(seg) && seg % 8 == 0 && from + 2 * seg <= |data|
    modifies cache.rows
    ensures cache.Valid()
    ensures r == Crc(poly, crc, data[from..from + 2 * seg]) && Fits(r)
  {
    hide Crc, Pow2, Xor, ZeroBits;
    var next2 := from + seg;
    var crc1, crc2, done := crc, 0, 0;
    assert data[from..from] == data[next2..next2] == [];
    CrcNothing(poly, crc);
    CrcNothing(poly, 0);
    ByteFits(0);
    while done < seg
      invariant 0 <= done <= seg && done % 8 == 0
      invariant cache.Valid() && TablesOk(poly, tables)
      invariant crc1 == Crc(poly, crc, data[from..from + done]) && Fits(crc1)
      invariant crc2 == Crc(poly, 0, data[next2..next2 + done]) && Fits(crc2)
    {
      crc1 := Advance(poly, tables, crc, crc1, data, from, done);
      crc2 := Advance(poly, tables, 0, crc2, data, next2, done);
      done := done + 8;
    }
    ghost var a, b := data[from..next2], data[next2..next2 + seg];
    MergeSegments(poly, crc, a, b);
    r := cache.Combine(crc1, crc2, seg);
    assert a + b == data[from..from + 2 * seg];
    CrcFits(poly, crc, a + b);
  }

  /** One byte further into the buffer. */
  method StepOn(poly: nat, tables: array2<nat>, ghost seed: nat, crc: nat, data: seq<Byte>, pos: nat) returns (r: nat)
    requires TablesOk(poly, tables) && Fits(poly) && Fits(crc)
    requires pos < |data| && crc == Crc(poly, seed, data[..pos])
    ensures r == Crc(poly, seed, data[..pos + 1]) && Fits(r)
  {
    hide Crc, Pow2;
    r := StepByte(poly, tables, crc, data[pos]);
    assert data[..pos + 1] == data[..pos] + [data[pos]];
    CrcConcat(poly, seed, data[..pos], [data[pos]]);
  }

  /** crcspeed64little, for any buffer address and any setting of the two cutoffs. */
  method Crc64Little(poly: nat, tables: array2<nat>, cache: CombineCache, crc: nat, data: seq<Byte>,
                     address: nat, dualCutoff: nat, triCutoff: nat) returns (r: nat)
    requires TablesOk(poly, tables) && cache.Valid() && cache.poly == poly && cache.rows != tables
    requires Fits(crc) && Fits(|data|)
    modifies cache.rows
    ensures cache.Valid()
    ensures r == Crc(poly, crc, data)
  {
    hide Crc, Pow2;
    r := crc;
    var pos := 0;
    CrcNothing(poly, crc);
    assert data[..0] == [];
    if dualCutoff >= 1 {
      while pos < |data| && (address + pos) % 8 != 0
        invariant 0 <= pos <= |data|
        invariant cache.Valid() && TablesOk(poly, tables)
        invariant r == Crc(poly, crc, data[..pos]) && Fits(r)
      {
        r := StepOn(poly, tables, crc, r, data, pos);
        pos := pos + 1;
      }
      var len := |data| - pos;
      if len > triCutoff {
        var seg := SegmentLength(len, 3);
        ghost var head, body := data[..pos], data[pos..pos + 3 * seg];
        r := ThreeSegments(poly, tables, cache, r, data, pos, seg);
        assert data[..pos + 3 * seg] == head + body;
        CrcConcat(poly, crc, head, body);
        pos := pos + 3 * seg;
      } else if len > dualCutoff {
        var seg := SegmentLength(len, 2);
        ghost var head, body := data[..pos], data[pos..pos + 2 * seg];
        r := TwoSegments(poly, tables, cache, r, data, pos, seg);
        assert data[..pos + 2 * seg] == head + body;
        CrcConcat(poly, crc, head, body);
        pos := pos + 2 * seg;
      }
      while pos + 8 <= |data|
        invariant 0 <= pos <= |data|
        invariant cache.Valid() && TablesOk(poly, tables)
        invariant r == Crc(poly, crc, data[..pos]) && Fits(r)
      {
        assert data[0..0 + pos] == data[..pos] && data[0..0 + pos + 8] == data[..pos + 8];
        r := Advance(poly, tables, crc, r, data, 0, pos);
        pos := pos + 8;
      }
    }
    while pos < |data|
      invariant 0 <= pos <= |data|
      invariant cache.Valid() && TablesOk(poly, tables)
      invariant r == Crc(poly, crc, data[..pos]) && Fits(r)
    {
      r := StepOn(poly, tables, crc, r, data, pos);
      pos := pos + 1;
    }
    assert data[..pos] == data;
  }

  lemma CrcNothing(poly: nat, crc: nat)
    ensures Crc(poly, crc, []) == crc
  {
  }
}
