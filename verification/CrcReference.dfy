/** The reflected CRC-64, one bit at a time: the reference for the fast forms.

    A message is a sequence of bytes.  The register is XORed with the next byte and
    shifted right eight times; each bit that falls out XORs the polynomial back in.
    Feeding zero bits is additive over XOR, composes, and undoes a left shift by a byte.
  */
module CrcReference {
  import opened Words

  type Byte = b: int | 0 <= b < 256

  ghost predicate Fits(x: nat) {
    x < Pow2(64)
  }

  /** One zero bit through the register. */
  function ZeroBit(poly: nat, crc: nat): nat {
    Xor(crc / 2, Select(crc, poly))
  }

  function ZeroBits(poly: nat, n: nat, crc: nat): nat {
    if n == 0 then crc else ZeroBits(poly, n - 1, ZeroBit(poly, crc))
  }

  function Crc(poly: nat, crc: nat, data: seq<Byte>): nat
    decreases |data|
  {
    if data == [] then crc else Crc(poly, ZeroBits(poly, 8, Xor(crc, data[0])), data[1..])
  }

  // ----- feeding zero bits -----

  lemma ZeroBitXor(poly: nat, a: nat, b: nat)
    ensures ZeroBit(poly, Xor(a, b)) == Xor(ZeroBit(poly, a), ZeroBit(poly, b))
  {
    hide Xor, Select;
    XorHalves(a, b);
    SelectXor(a, b, poly);
    XorSwap(a / 2, Select(a, poly), b / 2, Select(b, poly));
  }

  lemma {:induction false} ZeroBitsXor(poly: nat, n: nat, a: nat, b: nat)
    ensures ZeroBits(poly, n, Xor(a, b)) == Xor(ZeroBits(poly, n, a), ZeroBits(poly, n, b))
  {
    hide Xor, ZeroBit;
    if n > 0 {
      ZeroBitXor(poly, a, b);
      ZeroBitsXor(poly, n - 1, ZeroBit(poly, a), ZeroBit(poly, b));
    }
  }

  lemma {:induction false} ZeroBitsAdd(poly: nat, m: nat, n: nat, x: nat)
    ensures ZeroBits(poly, m + n, x) == ZeroBits(poly, m, ZeroBits(poly, n, x))
  {
    hide ZeroBit;
    if n > 0 {
      ZeroBitsAdd(poly, m, n - 1, ZeroBit(poly, x));
    }
  }

  lemma {:induction false} ZeroBitsFit(poly: nat, n: nat, x: nat)
    requires Fits(poly) && Fits(x)
    ensures Fits(ZeroBits(poly, n, x))
  {
    hide Xor, Pow2;
    if n > 0 {
      XorBound(x / 2, Select(x, poly), 64);
      ZeroBitsFit(poly, n - 1, ZeroBit(poly, x));
    }
  }

  /** Zero bits undo a left shift. */
  lemma {:induction false} ZeroBitsUnshift(poly: nat, n: nat, x: nat)
    ensures ZeroBits(poly, n, Shl(x, n)) == x
  {
    hide Xor;
    if n > 0 {
      var y := Shl(x, n - 1);
      assert (2 * y) / 2 == y && (2 * y) % 2 == 0;
      XorZero(y);
      ZeroBitsUnshift(poly, n - 1, x);
    }
  }

  // ----- messages -----

  lemma {:induction false} CrcConcat(poly: nat, crc: nat, a: seq<Byte>, b: seq<Byte>)
    ensures Crc(poly, crc, a + b) == Crc(poly, Crc(poly, crc, a), b)
    decreases |a|
  {
    hide Xor, ZeroBits;
    if a == [] {
      assert a + b == b;
    } else {
      assert (a + b)[1..] == a[1..] + b;
      CrcConcat(poly, ZeroBits(poly, 8, Xor(crc, a[0])), a[1..], b);
    }
  }

  /** A starting register value contributes independently of the message. */
  lemma {:induction false} CrcSeed(poly: nat, crc: nat, data: seq<Byte>)
    ensures Crc(poly, crc, data) == Xor(ZeroBits(poly, 8 * |data|, crc), Crc(poly, 0, data))
    decreases |data|
  {
    hide Xor, ZeroBits;
    if data == [] {
      assert ZeroBits(poly, 0, crc) == crc by { ZeroBitsNone(poly, crc); }
      XorZero(crc);
    } else {
      var c, d, rest := data[0], data, data[1..];
      var x, y := ZeroBits(poly, 8, Xor(crc, c)), ZeroBits(poly, 8, c);
      var z := ZeroBits(poly, 8, crc);
      ZeroBitsXor(poly, 8, crc, c);
      XorZero(c);
      CrcSeed(poly, x, rest);
      CrcSeed(poly, y, rest);
      var n := 8 * |rest|;
      ZeroBitsXor(poly, n, z, y);
      ZeroBitsAdd(poly, n, 8, crc);
      assert n + 8 == 8 * |data|;
      XorAssoc(ZeroBits(poly, n, z), ZeroBits(poly, n, y), Crc(poly, 0, rest));
    }
  }

  lemma ZeroBitsNone(poly: nat, x: nat)
    ensures ZeroBits(poly, 0, x) == x
  {
  }

  lemma {:induction false} CrcFits(poly: nat, crc: nat, data: seq<Byte>)
    requires Fits(poly) && Fits(crc)
    ensures Fits(Crc(poly, crc, data))
    decreases |data|
  {
    hide Xor, ZeroBits;
    if data != [] {
      ByteFits(data[0]);
      XorBound(crc, data[0], 64);
      ZeroBitsFit(poly, 8, Xor(crc, data[0]));
      CrcFits(poly, ZeroBits(poly, 8, Xor(crc, data[0])), data[1..]);
    }
  }

  lemma ByteFits(b: Byte)
    ensures Pow2(8) == 256 && Fits(b)
  {
    Pow2Monotone(8, 64);
  }
}
