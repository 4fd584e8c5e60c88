/** bitops.c: integers of any width at any bit offset. */
module Bitfield {
  import opened Bits
  import opened Words

  // ----- one bit -----

  /** Clear the bit, then set it if wanted. */
  function SetByte(b: bv8, m: bv8, v: bool): bv8 {
    Either(Both(b, Flip(m)), if v then m else 0)
  }

  lemma SetByteHas(b: bv8, i: nat, v: bool, n: nat)
    requires i < 8 && n < 8
    ensures Has(SetByte(b, Mask(i), v), Mask(n)) == if n == i then v else Has(b, Mask(n))
  {
    hide Both, Either, Flip, Has, Mask;
    var m := Mask(i);
    HasNot(m, Mask(n));
    HasAnd(b, Flip(m), Mask(n));
    HasOr(Both(b, Flip(m)), if v then m else 0, Mask(n));
    ZeroHas(Mask(n));
    MaskHas(i, n);
  }

  lemma MaskHas(i: nat, n: nat)
    requires i < 8 && n < 8
    ensures Has(Mask(i), Mask(n)) <==> i == n
  {
  }

  function SetBit(s: Bytes, p: nat, v: bool): (r: Bytes)
    requires p < 8 * |s|
    ensures |r| == |s|
  {
    s[p / 8 := SetByte(s[p / 8], Mask(p % 8), v)]
  }

  lemma SetBitAt(s: Bytes, p: nat, v: bool, q: nat)
    requires p < 8 * |s|
    ensures BitAt(SetBit(s, p, v), q) == if q == p then v else BitAt(s, q)
  {
    hide SetByte, Has, Mask;
    if q / 8 == p / 8 {
      SetByteHas(s[p / 8], p % 8, v, q % 8);
      assert q == 8 * (q / 8) + q % 8 && p == 8 * (p / 8) + p % 8;
    }
  }

  // ----- a field -----

  /** The unsigned number in n bits from off on, the first bit the most significant; zeros follow
      the string. */
  function Value(s: Bytes, off: nat, n: nat): nat {
    if n == 0 then 0 else 2 * Value(s, off, n - 1) + if BitAt(s, off + n - 1) then 1 else 0
  }

  /** The string with the low n bits of a number, in two's complement, from off on. */
  function Write(s: Bytes, off: nat, n: nat, v: int): (r: Bytes)
    requires off + n <= 8 * |s|
    ensures |r| == |s|
  {
    if n == 0 then s else SetBit(Write(s, off, n - 1, v / 2), off + n - 1, v % 2 == 1)
  }

  lemma {:induction false} ValueBound(s: Bytes, off: nat, n: nat)
    ensures Value(s, off, n) < Pow2(n)
  {
    hide BitAt;
    if n > 0 {
      ValueBound(s, off, n - 1);
    }
  }

  /** Writing a field changes no bit outside it. */
  lemma {:induction false} WriteOutside(s: Bytes, off: nat, n: nat, v: int, q: nat)
    requires off + n <= 8 * |s| && (q < off || off + n <= q)
    ensures BitAt(Write(s, off, n, v), q) == BitAt(s, q)
  {
    hide BitAt, SetBit;
    if n > 0 {
      WriteOutside(s, off, n - 1, v / 2, q);
      SetBitAt(Write(s, off, n - 1, v / 2), off + n - 1, v % 2 == 1, q);
    }
  }

  lemma {:induction false} ValueFrame(s: Bytes, t: Bytes, off: nat, n: nat)
    requires forall q :: off <= q < off + n ==> BitAt(s, q) == BitAt(t, q)
    ensures Value(s, off, n) == Value(t, off, n)
  {
    hide BitAt;
    if n > 0 {
      ValueFrame(s, t, off, n - 1);
    }
  }

  /** What is written is read back, modulo 2 to the width. */
  lemma {:induction false} WriteValue(s: Bytes, off: nat, n: nat, v: int)
    requires off + n <= 8 * |s|
    ensures Value(Write(s, off, n, v), off, n) == v % Pow2(n)
  {
    hide BitAt, SetBit;
    if n > 0 {
      var w := Write(s, off, n - 1, v / 2);
      WriteValue(s, off, n - 1, v / 2);
      forall q | off <= q < off + n - 1
        ensures BitAt(Write(s, off, n, v), q) == BitAt(w, q)
      {
        SetBitAt(w, off + n - 1, v % 2 == 1, q);
      }
      SetBitAt(w, off + n - 1, v % 2 == 1, off + n - 1);
      ValueFrame(Write(s, off, n, v), w, off, n - 1);
      HalfMod(v, Pow2(n - 1));
    }
  }

  lemma HalfMod(v: int, p: nat)
    requires p > 0
    ensures v % (2 * p) == 2 * (v / 2 % p) + v % 2
  {
    var h, q := v / 2, v / 2 / p;
    assert h == p * q + h % p;
    assert v == 2 * h + v % 2;
    assert v == (2 * p) * q + (2 * (h % p) + v % 2);
    ModUnique(v, 2 * p, q, 2 * (h % p) + v % 2);
  }

  lemma ModUnique(v: int, m: int, q: int, r: int)
    requires m > 0 && 0 <= r < m && v == m * q + r
    ensures v % m == r
  {
    var d := v / m - q;
    assert v == m * (v / m) + v % m;
    assert m * d == r - v % m by {
      assert m * (v / m) - m * q == m * d;
    }
    Multiple(m, d);
  }

  lemma Multiple(m: int, d: int)
    requires m > 0
    ensures (d >= 1 ==> m * d >= m) && (d <= -1 ==> m * d <= -m) && (d == 0 ==> m * d == 0)
  {
  }

  // ----- the code -----

  const U64: int := 0x1_0000_0000_0000_0000
  const I63: int := 0x8000_0000_0000_0000

  lemma Powers()
    ensures Pow2(63) == I63 && Pow2(64) == U64
  {
    assert Pow2(8) == 0x100;
    PowAdd(8, 8);
    PowAdd(16, 16);
    PowAdd(32, 32);
  }

  lemma {:induction false} PowAdd(a: nat, b: nat)
    ensures Pow2(a + b) == Pow2(a) * Pow2(b)
  {
    if a > 0 {
      PowAdd(a - 1, b);
    }
  }

  /** A number as a 64-bit word, and a word as a signed number. */
  function ToU64(x: int): (u: nat)
    ensures u < U64
  {
    x % U64
  }

  function ToI64(x: int): (i: int)
    ensures -I63 <= i < I63
  {
    if x % U64 >= I63 then x % U64 - U64 else x % U64
  }

  /** setUnsignedBitfield, in place. */
  method SetUnsignedBitfield(p: array<bv8>, offset: nat, bits: nat, value: nat)
    requires 1 <= bits <= 64 && offset + bits <= 8 * p.Length && value < U64
    modifies p
    ensures p[..] == Write(old(p[..]), offset, bits, value)
  {
    hide BitAt, SetBit, SetByte, Mask;
    var at := offset;
    ghost var s := p[..];
    var j := 0;
    while j < bits
      invariant j <= bits && at == offset + j && p[..] == Write(s, offset, j, value / Pow2(bits - j))
    {
      var bitval := value / Pow2(bits - 1 - j) % 2 == 1;
      WriteNext(s, offset, bits, j, value);
      SetBitIs(p[..], at, bitval);
      p[at / 8] := SetByte(p[at / 8], Mask(at % 8), bitval);
      at := at + 1;
      j := j + 1;
    }
    assert value / Pow2(0) == value;
  }

  lemma SetBitIs(s: Bytes, p: nat, v: bool)
    requires p < 8 * |s|
    ensures SetBit(s, p, v) == s[p / 8 := SetByte(s[p / 8], Mask(p % 8), v)]
  {
  }

  lemma WriteNext(s: Bytes, offset: nat, bits: nat, j: nat, value: nat)
    requires j < bits && offset + bits <= 8 * |s|
    ensures Write(s, offset, j + 1, value / Pow2(bits - (j + 1)))
            == SetBit(Write(s, offset, j, value / Pow2(bits - j)), offset + j, value / Pow2(bits - 1 - j) % 2 == 1)
  {
    hide SetBit;
    var k := bits - 1 - j;
    HalfOf(value, Pow2(k));
    assert Pow2(bits - j) == 2 * Pow2(k);
  }

  lemma HalfOf(v: int, p: nat)
    requires p > 0
    ensures v / p / 2 == v / (2 * p)
  {
    var a := v / p;
    var r := v % p;
    assert v == p * a + r;
    assert a == 2 * (a / 2) + a % 2;
    assert v == (2 * p) * (a / 2) + (p * (a % 2) + r);
    assert 0 <= p * (a % 2) + r < 2 * p;
    DivUnique(v, 2 * p, a / 2, p * (a % 2) + r);
  }

  lemma DivUnique(v: int, m: int, q: int, r: int)
    requires m > 0 && 0 <= r < m && v == m * q + r
    ensures v / m == q
  {
    ModUnique(v, m, q, r);
    var d := v / m - q;
    assert m * d == 0 by {
      assert v == m * (v / m) + v % m;
      assert m * (v / m) - m * q == m * d;
    }
    Multiple(m, d);
  }

  /** getUnsignedBitfield. */
  method GetUnsignedBitfield(p: Bytes, offset: nat, bits: nat) returns (value: nat)
    requires bits <= 64 && offset + bits <= 8 * |p|
    ensures value == Value(p, offset, bits)
  {
    hide BitAt;
    value := 0;
    for j := 0 to bits
      invariant value == Value(p, offset, j)
    {
      var byte, bit := (offset + j) / 8, (offset + j) % 8;
      BitIs(p, offset + j);
      ValueBound(p, offset, j + 1);
      PowUpTo(j + 1);
      value := (value * 2 + (if Has(p[byte], Mask(bit)) then 1 else 0)) % U64;
    }
  }

  lemma BitIs(s: Bytes, q: nat)
    requires q < 8 * |s|
    ensures BitAt(s, q) == Has(s[q / 8], Mask(q % 8))
  {
  }

  lemma PowUpTo(n: nat)
    requires n <= 64
    ensures Pow2(n) <= U64
  {
    hide Pow2;
    Powers();
    Pow2Monotone(n, 64);
  }

  /** An unsigned number of n bits read as two's complement. */
  function Signed(u: nat, n: nat): int
    requires n >= 1
  {
    if u >= Pow2(n - 1) then u - Pow2(n) else u
  }

  /** getSignedBitfield. */
  method GetSignedBitfield(p: Bytes, offset: nat, bits: nat) returns (value: int)
    requires 1 <= bits <= 64 && offset + bits <= 8 * |p|
    ensures value == Signed(Value(p, offset, bits), bits)
  {
    hide BitAt, Value, Pow2;
    var u := GetUnsignedBitfield(p, offset, bits);
    ValueBound(p, offset, bits);
    Powers();
    PowDouble(bits);
    value := ToI64(u);
    if bits < 64 {
      Pow2Monotone(bits, 63);
      TopBit(u, bits);
      if u / Pow2(bits - 1) % 2 == 1 {
        value := value - Pow2(bits);
      }
    }
  }

  lemma PowDouble(n: nat)
    requires n >= 1
    ensures Pow2(n) == 2 * Pow2(n - 1)
  {
  }

  lemma TopBit(u: nat, n: nat)
    requires n >= 1 && u < Pow2(n)
    ensures u / Pow2(n - 1) % 2 == 1 <==> u >= Pow2(n - 1)
  {
    hide Pow2;
    var h := Pow2(n - 1);
    PowDouble(n);
    if u >= h {
      DivUnique(u, h, 1, u - h);
    } else {
      DivUnique(u, h, 0, u);
    }
  }

  /** setSignedBitfield. */
  method SetSignedBitfield(p: array<bv8>, offset: nat, bits: nat, value: int)
    requires 1 <= bits <= 64 && offset + bits <= 8 * p.Length && -I63 <= value < I63
    modifies p
    ensures p[..] == Write(old(p[..]), offset, bits, value)
  {
    hide Write, Pow2;
    WriteWraps(p[..], offset, bits, value);
    SetUnsignedBitfield(p, offset, bits, ToU64(value));
  }

  /** A field takes no more of a number than its width. */
  lemma WriteWraps(s: Bytes, off: nat, n: nat, v: int)
    requires n <= 64 && off + n <= 8 * |s|
    ensures Write(s, off, n, v % U64) == Write(s, off, n, v)
  {
    hide Write, Pow2;
    Powers();
    WriteMod(s, off, n, v, 64);
  }

  lemma {:induction false} WriteMod(s: Bytes, off: nat, n: nat, v: int, k: nat)
    requires n <= k && off + n <= 8 * |s|
    ensures Write(s, off, n, v % Pow2(k)) == Write(s, off, n, v)
    decreases n
  {
    hide SetBit;
    if n > 0 {
      var m := v % Pow2(k);
      HalfMod(v, Pow2(k - 1));
      WriteMod(s, off, n - 1, v / 2, k - 1);
      assert m == 2 * (v / 2 % Pow2(k - 1)) + v % 2;
      assert m / 2 == v / 2 % Pow2(k - 1) && m % 2 == v % 2;
    }
  }
}
