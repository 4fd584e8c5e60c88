/** crccombine.c: jumping a CRC over `len2` zero bytes with a cache of bit matrices.

    A 64x64 bit matrix is a sequence of 64 rows; multiplying it by a vector XORs the rows
    selected by the set bits of the vector.  Row k of the cache is proved to be the
    operator that feeds 2^k zero bytes, and both fast multiplications to be the plain
    row selection.
  */
module CrcCombine {
  import opened Words
  import opened CrcReference

  // ----- matrices over GF(2) -----

  /** The XOR of the rows selected by the bits of `vec`, lowest bit first. */
  function Times(mat: seq<nat>, vec: nat): nat
    decreases |mat|
  {
    if mat == [] then 0
    else Xor(Select(vec, mat[0]), Times(mat[1..], vec / 2))
  }

  lemma {:induction false} TimesZero(mat: seq<nat>)
    ensures Times(mat, 0) == 0
    decreases |mat|
  {
    if mat != [] {
      TimesZero(mat[1..]);
    }
  }

  lemma {:induction false} TimesXor(mat: seq<nat>, a: nat, b: nat)
    ensures Times(mat, Xor(a, b)) == Xor(Times(mat, a), Times(mat, b))
    decreases |mat|
  {
    if mat == [] {
    } else {
      hide Xor, Select;
      XorHalves(a, b);
      TimesXor(mat[1..], a / 2, b / 2);
      SelectXor(a, b, mat[0]);
      XorSwap(Select(a, mat[0]), Times(mat[1..], a / 2), Select(b, mat[0]), Times(mat[1..], b / 2));
    }
  }

  lemma {:induction false} TimesFits(mat: seq<nat>, vec: nat)
    requires forall i :: 0 <= i < |mat| ==> Fits(mat[i])
    ensures Fits(Times(mat, vec))
    decreases |mat|
  {
    hide Xor, Pow2;
    if mat != [] {
      TimesFits(mat[1..], vec / 2);
      XorBound(Select(vec, mat[0]), Times(mat[1..], vec / 2), 64);
    }
  }

  /** Multiplying every row by `mat` composes the two matrices. */
  lemma {:induction false} TimesCompose(mat: seq<nat>, rows: seq<nat>, product: seq<nat>, vec: nat)
    requires |product| == |rows|
    requires forall i :: 0 <= i < |rows| ==> product[i] == Times(mat, rows[i])
    ensures Times(product, vec) == Times(mat, Times(rows, vec))
    decreases |rows|
  {
    hide Xor;
    TimesZero(mat);
    if rows != [] {
      TimesCompose(mat, rows[1..], product[1..], vec / 2);
      TimesXor(mat, Select(vec, rows[0]), Times(rows[1..], vec / 2));
    }
  }

  /** `rows` is the matrix that feeds `bits` zero bits to any 64-bit register. */
  ghost predicate Operator(poly: nat, rows: seq<nat>, bits: nat) {
    && |rows| == 64
    && (forall i :: 0 <= i < 64 ==> Fits(rows[i]))
    && (forall v: nat :: Fits(v) ==> Times(rows, v) == ZeroBits(poly, bits, v))
  }

  lemma SquareDoubles(poly: nat, rows: seq<nat>, square: seq<nat>, bits: nat)
    requires Fits(poly) && Operator(poly, rows, bits)
    requires |square| == 64 && forall i :: 0 <= i < 64 ==> square[i] == Times(rows, rows[i])
    ensures Operator(poly, square, 2 * bits)
  {
    hide Times, ZeroBits, Fits;
    forall i | 0 <= i < 64
      ensures Fits(square[i])
    {
      TimesFits(rows, rows[i]);
    }
    forall v: nat | Fits(v)
      ensures Times(square, v) == ZeroBits(poly, 2 * bits, v)
    {
      TimesCompose(rows, rows, square, v);
      ZeroBitsFit(poly, bits, v);
      ZeroBitsAdd(poly, bits, bits, v);
      assert bits + bits == 2 * bits;
    }
  }

  // ----- the operator for one zero bit -----

  /** The rows 2^k, 2^(k+1), ..., `n` of them. */
  function Powers(k: nat, n: nat): seq<nat>
    decreases n
  {
    if n == 0 then [] else [Pow2(k)] + Powers(k + 1, n - 1)
  }

  lemma {:induction false} PowersAt(k: nat, n: nat, i: nat)
    requires i < n
    ensures |Powers(k, n)| == n && Powers(k, n)[i] == Pow2(k + i)
    decreases n
  {
    if i == 0 {
      if n > 1 {
        PowersAt(k + 1, n - 1, 0);
      } else {
        assert Powers(k + 1, 0) == [];
      }
    } else {
      PowersAt(k + 1, n - 1, i - 1);
    }
  }

  lemma {:induction false} ShlSplit(v: nat, k: nat)
    ensures Shl(v, k) == Shl(v % 2, k) + Shl(v / 2, k + 1)
  {
    if k > 0 {
      ShlSplit(v, k - 1);
    }
  }

  lemma {:induction false} ShlBit(k: nat)
    ensures Shl(0, k) == 0 && Shl(1, k) == Pow2(k)
  {
    if k > 0 {
      ShlBit(k - 1);
    }
  }

  /** Rows that are consecutive powers of two shift the vector. */
  lemma {:induction false} TimesPowers(k: nat, n: nat, v: nat)
    requires v < Pow2(n)
    ensures Times(Powers(k, n), v) == Shl(v, k)
    decreases n
  {
    ShlBit(k);
    if n == 0 {
      assert v == 0;
    } else {
      TimesPowers(k + 1, n - 1, v / 2);
      hide Xor;
      var head := Select(v, Pow2(k));
      assert Powers(k, n)[1..] == Powers(k + 1, n - 1);
      assert head < Pow2(k + 1);
      XorDisjoint(head, v / 2, k + 1);
      ShlSplit(v, k);
    }
  }

  /** The matrix that init_combine_cache starts from: the polynomial, then 1, 2, 4, ... */
  ghost predicate StartRows(poly: nat, rows: seq<nat>) {
    && |rows| == 64 && rows[0] == poly
    && forall i :: 1 <= i < 64 ==> rows[i] == Pow2(i - 1)
  }

  lemma StartRowsArePowers(poly: nat, rows: seq<nat>)
    requires StartRows(poly, rows)
    ensures rows[1..] == Powers(0, 63)
  {
    hide Powers, Pow2;
    PowersAt(0, 63, 0);
    forall i | 0 <= i < 63
      ensures rows[1..][i] == Powers(0, 63)[i]
    {
      PowersAt(0, 63, i);
    }
  }

  lemma StartRowsFeedOne(poly: nat, rows: seq<nat>, v: nat)
    requires StartRows(poly, rows) && Fits(v)
    ensures Times(rows, v) == ZeroBits(poly, 1, v)
  {
    HalfFits(v);
    hide Xor, Select, Pow2, Powers;
    StartRowsArePowers(poly, rows);
    TimesPowers(0, 63, v / 2);
    ShlNothing(v / 2);
    XorComm(Select(v, poly), v / 2);
    ZeroBitsNone(poly, ZeroBit(poly, v));
  }

  lemma HalfFits(v: nat)
    requires Fits(v)
    ensures v / 2 < Pow2(63)
  {
  }

  lemma OneBitOperator(poly: nat, rows: seq<nat>)
    requires Fits(poly) && StartRows(poly, rows)
    ensures Operator(poly, rows, 1)
  {
    hide Times, ZeroBits, Pow2;
    forall i | 0 <= i < 64
      ensures Fits(rows[i])
    {
      if i > 0 {
        Pow2Monotone(i - 1, 63);
        HalfOf(63);
      }
    }
    forall v: nat | Fits(v)
      ensures Times(rows, v) == ZeroBits(poly, 1, v)
    {
      StartRowsFeedOne(poly, rows, v);
    }
  }

  lemma HalfOf(k: nat)
    ensures Pow2(k) < Pow2(k + 1)
  {
  }

  // ----- the two fast multiplications -----

  /** The sixteen cases of gf2_matrix_times_switch: the rows selected by a 4-bit group. */
  function SwitchCase(a: nat, b: nat, c: nat, d: nat, n: nat): nat {
    match n
    case 15 => Xor(Xor(Xor(a, b), c), d)
    case 14 => Xor(Xor(b, c), d)
    case 13 => Xor(Xor(a, c), d)
    case 12 => Xor(c, d)
    case 11 => Xor(Xor(a, b), d)
    case 10 => Xor(b, d)
    case 9 => Xor(a, d)
    case 8 => d
    case 7 => Xor(Xor(a, b), c)
    case 6 => Xor(b, c)
    case 5 => Xor(a, c)
    case 4 => c
    case 3 => Xor(a, b)
    case 2 => b
    case 1 => a
    case _ => 0
  }

  lemma SwitchSelects(a: nat, b: nat, c: nat, d: nat, n: nat)
    requires n < 16
    ensures SwitchCase(a, b, c, d, n)
            == Xor(Select(n, a), Xor(Select(n / 2, b), Xor(Select(n / 4, c), Select(n / 8, d))))
  {
    hide Xor;
    XorZero(0);
    XorZero(a);
    XorZero(b);
    XorZero(c);
    XorZero(d);
    XorZero(Xor(c, d));
    XorZero(Xor(b, c));
    XorZero(Xor(b, d));
    XorZero(Xor(b, Xor(c, d)));
    XorAssoc(a, b, c);
    XorAssoc(a, b, d);
    XorAssoc(a, c, d);
    XorAssoc(b, c, d);
    XorAssoc(Xor(a, b), c, d);
    XorAssoc(a, b, Xor(c, d));
  }

  lemma SelectLow(vec: nat, p: nat)
    ensures Select(vec % 16, p) == Select(vec, p)
    ensures Select(vec % 16 / 2, p) == Select(vec / 2, p)
    ensures Select(vec % 16 / 4, p) == Select(vec / 4, p)
    ensures Select(vec % 16 / 8, p) == Select(vec / 8, p)
  {
    var q, r := vec / 16, vec % 16;
    assert vec / 2 == 8 * q + r / 2;
    assert vec / 4 == 4 * q + r / 4;
    assert vec / 8 == 2 * q + r / 8;
  }

  /** Two rows at a time. */
  lemma TimesTwo(mat: seq<nat>, at: nat, vec: nat)
    requires at + 2 <= |mat|
    ensures Times(mat[at..], vec)
            == Xor(Select(vec, mat[at]), Xor(Select(vec / 2, mat[at + 1]), Times(mat[at + 2..], vec / 4)))
  {
    hide Xor;
    assert mat[at..][1..] == mat[at + 1..] && mat[at + 1..][1..] == mat[at + 2..];
    assert vec / 2 / 2 == vec / 4;
  }

  /** Four rows at a time. */
  lemma TimesFour(mat: seq<nat>, at: nat, vec: nat)
    requires at + 4 <= |mat|
    ensures Times(mat[at..], vec)
            == Xor(SwitchCase(mat[at], mat[at + 1], mat[at + 2], mat[at + 3], vec % 16), Times(mat[at + 4..], vec / 16))
  {
    hide Xor, Select, Times, SwitchCase;
    var a, b, c, d := Select(vec, mat[at]), Select(vec / 2, mat[at + 1]), Select(vec / 4, mat[at + 2]),
      Select(vec / 8, mat[at + 3]);
    var rest := Times(mat[at + 4..], vec / 16);
    TimesTwo(mat, at, vec);
    TimesTwo(mat, at + 2, vec / 4);
    assert vec / 4 / 2 == vec / 8 && vec / 4 / 4 == vec / 16;
    SwitchSelects(mat[at], mat[at + 1], mat[at + 2], mat[at + 3], vec % 16);
    SelectLow(vec, mat[at]);
    SelectLow(vec, mat[at + 1]);
    SelectLow(vec, mat[at + 2]);
    SelectLow(vec, mat[at + 3]);
    XorAssoc(c, d, rest);
    XorAssoc(b, Xor(c, d), rest);
    XorAssoc(a, Xor(b, Xor(c, d)), rest);
  }

  lemma Pow2Quarter(k: nat, v: nat)
    requires k >= 4 && v < Pow2(k)
    ensures v / 16 < Pow2(k - 4)
  {
    assert Pow2(k) == 2 * Pow2(k - 1) && Pow2(k - 1) == 2 * Pow2(k - 2);
    assert Pow2(k - 2) == 2 * Pow2(k - 3) && Pow2(k - 3) == 2 * Pow2(k - 4);
  }

  lemma NonzeroNeedsRows(at: nat, vec: nat)
    requires at <= 64 && at % 4 == 0 && vec != 0 && vec < Pow2(64 - at)
    ensures at + 4 <= 64
  {
    assert Pow2(0) == 1;
  }

  /** gf2_matrix_times_switch; no row past the last one is read. */
  method TimesSwitch(mat: seq<nat>, v: nat) returns (sum: nat)
    requires |mat| == 64 && Fits(v)
    ensures sum == Times(mat, v)
  {
    hide Xor, Times, SwitchCase, Pow2;
    sum := 0;
    var vec: nat, at: nat := v, 0;
    assert mat[0..] == mat;
    XorZero(Times(mat, v));
    while vec != 0
      invariant 0 <= at <= 64 && at % 4 == 0 && vec < Pow2(64 - at)
      invariant Xor(sum, Times(mat[at..], vec)) == Times(mat, v)
      decreases vec
    {
      NonzeroNeedsRows(at, vec);
      var rows := SwitchCase(mat[at], mat[at + 1], mat[at + 2], mat[at + 3], vec % 16);
      TimesFour(mat, at, vec);
      XorAssoc(sum, rows, Times(mat[at + 4..], vec / 16));
      Pow2Quarter(64 - at, vec);
      sum := Xor(sum, rows);
      vec := vec / 16;
      at := at + 4;
    }
    TimesZero(mat[at..]);
    XorZero(sum);
  }

  /** The mask table of gf2_matrix_times_vec2: which of the two lanes an index keeps. */
  function Masks2(index: nat): (lanes: (bool, bool)) {
    match index
    case 0 => (false, false)
    case 1 => (true, false)
    case 2 => (false, true)
    case _ => (true, true)
  }

  function Masked(x: nat, keep: bool): nat {
    if keep then x else 0
  }

  /** Half of DO_CHUNK4: two bits, one per lane. */
  method DoChunk2(mat: seq<nat>, sum: (nat, nat), vec: nat, at: nat) returns (out: (nat, nat))
    requires at + 2 <= |mat|
    ensures Xor(Xor(out.0, out.1), Times(mat[at + 2..], vec / 4)) == Xor(Xor(sum.0, sum.1), Times(mat[at..], vec))
  {
    hide Xor, Times;
    var lanes := Masks2(vec % 4);
    var x, y := Masked(mat[at], lanes.0), Masked(mat[at + 1], lanes.1);
    assert x == Select(vec, mat[at]) && y == Select(vec / 2, mat[at + 1]);
    out := (Xor(sum.0, x), Xor(sum.1, y));
    var rest := Times(mat[at + 2..], vec / 4);
    TimesTwo(mat, at, vec);
    XorSwap(sum.0, x, sum.1, y);
    XorAssoc(x, y, rest);
    XorAssoc(Xor(sum.0, sum.1), Xor(x, y), rest);
  }

  method DoChunk4(mat: seq<nat>, sum: (nat, nat), vec: nat, at: nat) returns (out: (nat, nat))
    requires at + 4 <= |mat|
    ensures Xor(Xor(out.0, out.1), Times(mat[at + 4..], vec / 16)) == Xor(Xor(sum.0, sum.1), Times(mat[at..], vec))
  {
    hide Xor, Times;
    out := DoChunk2(mat, sum, vec, at);
    out := DoChunk2(mat, out, vec / 4, at + 2);
    assert vec / 4 / 4 == vec / 16;
  }

  method DoChunk16(mat: seq<nat>, sum: (nat, nat), vec: nat, at: nat) returns (out: (nat, nat))
    requires at + 16 <= |mat|
    ensures Xor(Xor(out.0, out.1), Times(mat[at + 16..], vec / 65536)) == Xor(Xor(sum.0, sum.1), Times(mat[at..], vec))
  {
    hide Xor, Times;
    out := DoChunk4(mat, sum, vec, at);
    out := DoChunk4(mat, out, vec / 16, at + 4);
    assert vec / 16 / 16 == vec / 256;
    out := DoChunk4(mat, out, vec / 256, at + 8);
    assert vec / 256 / 16 == vec / 4096;
    out := DoChunk4(mat, out, vec / 4096, at + 12);
    assert vec / 4096 / 16 == vec / 65536;
  }

  /** gf2_matrix_times_vec2: two lanes of partial sums, unrolled over all 64 rows. */
  method TimesVec2(mat: seq<nat>, vec: nat) returns (r: nat)
    requires |mat| == 64
    ensures r == Times(mat, vec)
  {
    hide Xor, Times;
    var v16, v32, v48 := vec / 65536, vec / 65536 / 65536, vec / 65536 / 65536 / 65536;
    var sum := DoChunk16(mat, (0, 0), vec, 0);
    sum := DoChunk16(mat, sum, v16, 16);
    sum := DoChunk16(mat, sum, v32, 32);
    sum := DoChunk16(mat, sum, v48, 48);
    r := Xor(sum.0, sum.1);
    assert mat[0..] == mat && mat[64..] == [];
    TimesNothing(v48 / 65536);
    XorZero(0);
    XorZero(r);
    XorZero(Times(mat, vec));
  }

  lemma TimesNothing(vec: nat)
    ensures Times([], vec) == 0
  {
  }

  // ----- the cache and the combination -----

  class CombineCache {
    const poly: nat
    const vectorised: bool  // which CRC_MULTIPLY the build selects
    const rows: array2<nat>

    function Row(k: nat): (row: seq<nat>)
      requires rows.Length0 == 64 && rows.Length1 == 64 && k < 64
      reads rows
      ensures |row| == 64 && forall j :: 0 <= j < 64 ==> row[j] == rows[k, j]
    {
      seq(64, j requires 0 <= j < 64 reads rows => rows[k, j])
    }

    /** Row k is the operator for 2^k zero bytes. */
    ghost predicate Ready()
      requires rows.Length0 == 64 && rows.Length1 == 64
      reads rows
    {
      forall k: nat :: k < 64 ==> Operator(poly, Row(k), Shl(8, k))
    }

    /** The cache is either untouched, which its first word being zero tells, or built. */
    ghost predicate Valid()
      reads rows
    {
      && Fits(poly)
      && rows.Length0 == 64 && rows.Length1 == 64
      && (rows[0, 0] != 0 ==> Ready())
    }

    constructor (poly: nat, vectorised: bool)
      requires Fits(poly)
      ensures Valid() && fresh(rows)
      ensures this.poly == poly && this.vectorised == vectorised
    {
      this.poly, this.vectorised := poly, vectorised;
      rows := new nat[64, 64]((i, j) => 0);
    }

    method Multiply(mat: seq<nat>, vec: nat) returns (r: nat)
      requires |mat| == 64 && Fits(vec)
      ensures r == Times(mat, vec)
    {
      if vectorised {
        r := TimesVec2(mat, vec);
      } else {
        r := TimesSwitch(mat, vec);
      }
    }

    /** gf2_matrix_square */
    method Square(dst: nat, src: nat, ghost bits: nat)
      requires Fits(poly) && rows.Length0 == 64 && rows.Length1 == 64
      requires dst < 64 && src < 64 && dst != src
      requires Operator(poly, Row(src), bits)
      modifies rows
      ensures Operator(poly, Row(dst), 2 * bits)
      ensures forall k: nat :: k < 64 && k != dst ==> Row(k) == old(Row(k))
    {
      hide Times, ZeroBits, Fits;
      var mat := Row(src);
      var n := 0;
      while n < 64
        invariant 0 <= n <= 64
        invariant forall k: nat :: k < 64 && k != dst ==> Row(k) == old(Row(k))
        invariant forall j :: 0 <= j < n ==> Row(dst)[j] == Times(mat, mat[j])
      {
        ghost var before := Row(dst);
        var x := Multiply(mat, mat[n]);
        rows[dst, n] := x;
        assert Row(dst)[n] == x;
        assert forall j :: 0 <= j < n ==> Row(dst)[j] == before[j];
        n := n + 1;
      }
      SquareDoubles(poly, mat, Row(dst), bits);
    }

    /** init_combine_cache */
    method Init()
      requires Fits(poly) && rows.Length0 == 64 && rows.Length1 == 64
      modifies rows
      ensures Ready()
    {
      hide Times, ZeroBits, Fits, Operator;
      rows[1, 0] := poly;
      var row := 1;
      var n := 1;
      while n < 64
        invariant 1 <= n <= 64 && row == Pow2(n - 1)
        invariant rows[1, 0] == poly
        invariant forall j :: 1 <= j < n ==> rows[1, j] == Pow2(j - 1)
      {
        rows[1, n] := row;
        row := 2 * row;
        n := n + 1;
      }
      OneBitOperator(poly, Row(1));
      Square(0, 1, 1);
      Square(1, 0, 2);
      var cacheNum, prev := 0, 1;
      Square(cacheNum, cacheNum + prev, 4);
      prev := -1;
      cacheNum := 1;
      while cacheNum < 64
        invariant 1 <= cacheNum <= 64 && prev == -1
        invariant forall k: nat :: k < cacheNum ==> Operator(poly, Row(k), Shl(8, k))
      {
        label before:
        Square(cacheNum, cacheNum + prev, Shl(8, cacheNum - 1));
        assert forall k: nat :: k < cacheNum ==> Row(k) == old@before(Row(k));
        cacheNum := cacheNum + 1;
      }
    }

    /** crc64_combine */
    method Combine(crc1: nat, crc2: nat, len2: nat) returns (r: nat)
      requires Valid() && Fits(crc1) && Fits(len2)
      modifies rows
      ensures Valid()
      ensures r == if len2 == 0 then crc1 else Xor(ZeroBits(poly, 8 * len2, crc1), crc2)
      ensures forall a: seq<Byte>, b: seq<Byte> ::
                crc1 == Crc(poly, 0, a) && crc2 == Crc(poly, 0, b) && len2 == |b| ==> r == Crc(poly, 0, a + b)
    {
      hide Crc, Times, ZeroBits, Xor, Pow2, Shl;
      forall a: seq<Byte>, b: seq<Byte> | crc1 == Crc(poly, 0, a) && crc2 == Crc(poly, 0, b) && len2 == |b|
        ensures Crc(poly, 0, a + b) == if len2 == 0 then crc1 else Xor(ZeroBits(poly, 8 * len2, crc1), crc2)
      {
        CombineIsConcatenation(poly, a, b);
      }
      if len2 == 0 {
        return crc1;
      }
      if rows[0, 0] == 0 {
        Init();
      }
      var crc, len, cacheNum := crc1, len2, 0;
      ShlNothing(8 * len);
      while len != 0
        invariant 0 <= cacheNum <= 64 && 0 <= len < Pow2(64 - cacheNum)
        invariant Ready() && Fits(crc)
        invariant ZeroBits(poly, Shl(8 * len, cacheNum), crc) == ZeroBits(poly, 8 * len2, crc1)
        decreases len
      {
        NonzeroNeedsIndex(cacheNum, len);
        LengthSplit(len, cacheNum);
        if len % 2 == 1 {
          var mat := Row(cacheNum);
          ZeroBitsAdd(poly, Shl(8 * (len / 2), cacheNum + 1), Shl(8, cacheNum), crc);
          ZeroBitsFit(poly, Shl(8, cacheNum), crc);
          assert Operator(poly, mat, Shl(8, cacheNum));
          crc := Multiply(mat, crc);
        }
        len := len / 2;
        cacheNum := cacheNum + 1;
      }
      ShlZero(cacheNum);
      ZeroBitsNone(poly, crc);
      r := Xor(crc, crc2);
    }
  }

  lemma NonzeroNeedsIndex(k: nat, len: nat)
    requires k <= 64 && len != 0 && len < Pow2(64 - k)
    ensures k < 64 && len / 2 < Pow2(64 - (k + 1))
  {
    assert Pow2(0) == 1;
  }

  lemma ShlNothing(x: nat)
    ensures Shl(x, 0) == x
  {
  }

  lemma ShlZero(k: nat)
    ensures Shl(0, k) == 0
  {
    ShlBit(k);
  }

  /** One bit of the length: 8 * 2^k zero bits for it, the rest one level up. */
  lemma {:induction false} LengthSplit(len: nat, k: nat)
    ensures Shl(8 * len, k) == Shl(8 * (len / 2), k + 1) + (if len % 2 == 1 then Shl(8, k) else 0)
  {
    if k > 0 {
      LengthSplit(len, k - 1);
    }
  }

  /** The promise of crc64_combine: the combined value is the CRC of the concatenation. */
  lemma CombineIsConcatenation(poly: nat, a: seq<Byte>, b: seq<Byte>)
    ensures Crc(poly, 0, a + b)
            == if |b| == 0 then Crc(poly, 0, a)
               else Xor(ZeroBits(poly, 8 * |b|, Crc(poly, 0, a)), Crc(poly, 0, b))
  {
    hide Xor, ZeroBits;
    CrcConcat(poly, 0, a, b);
    CrcSeed(poly, Crc(poly, 0, a), b);
    if b == [] {
      assert a + b == a;
    }
  }
}
