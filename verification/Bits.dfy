/** Bytes and their bits.  Bit 0 of a string is the most significant bit of its first byte. */
module Bits {

  type Bytes = seq<bv8>

  predicate OneHot(m: bv8) {
    m == 0x80 || m == 0x40 || m == 0x20 || m == 0x10 || m == 8 || m == 4 || m == 2 || m == 1
  }

  /** Whether a byte has the bit of a mask. */
  predicate Has(b: bv8, m: bv8) {
    b & m != 0
  }

  /** The mask of bit i of a byte. */
  function Mask(i: nat): (m: bv8)
    requires i < 8
    ensures OneHot(m)
  {
    if i == 0 then 0x80
    else if i == 1 then 0x40
    else if i == 2 then 0x20
    else if i == 3 then 0x10
    else if i == 4 then 8
    else if i == 5 then 4
    else if i == 6 then 2
    else 1
  }

  /** A byte of a string that is followed by zeros for ever. */
  function ByteAt(s: Bytes, j: nat): bv8 {
    if j < |s| then s[j] else 0
  }

  /** A bit of such a string. */
  predicate BitAt(s: Bytes, p: nat) {
    Has(ByteAt(s, p / 8), Mask(p % 8))
  }

  // The operators on bytes, named so that proofs can leave them closed.

  function Both(a: bv8, b: bv8): bv8 {
    a & b
  }

  function Either(a: bv8, b: bv8): bv8 {
    a | b
  }

  function Differ(a: bv8, b: bv8): bv8 {
    a ^ b
  }

  function Flip(a: bv8): bv8 {
    !a
  }

  lemma ZeroHas(m: bv8)
    ensures !Has(0, m)
  {
  }

  lemma FullHas(m: bv8)
    requires OneHot(m)
    ensures Has(0xff, m)
  {
  }

  lemma HasAnd(a: bv8, b: bv8, m: bv8)
    requires OneHot(m)
    ensures Has(Both(a, b), m) <==> Has(a, m) && Has(b, m)
  {
  }

  lemma HasOr(a: bv8, b: bv8, m: bv8)
    ensures Has(Either(a, b), m) <==> Has(a, m) || Has(b, m)
  {
  }

  lemma HasXor(a: bv8, b: bv8, m: bv8)
    requires OneHot(m)
    ensures Has(Differ(a, b), m) <==> Has(a, m) != Has(b, m)
  {
  }

  lemma HasNot(a: bv8, m: bv8)
    requires OneHot(m)
    ensures Has(Flip(a), m) <==> !Has(a, m)
  {
  }

  // ----- counting -----

  function One(b: bv8, m: bv8): (n: nat)
    ensures n <= 1
  {
    if Has(b, m) then 1 else 0
  }

  /** How many bits of a byte are set. */
  function Ones(b: bv8): nat {
    One(b, 0x80) + One(b, 0x40) + One(b, 0x20) + One(b, 0x10) + One(b, 8) + One(b, 4) + One(b, 2) + One(b, 1)
  }

  /** How many bits of a string are set. */
  function OnesIn(s: Bytes): nat {
    if s == [] then 0 else OnesIn(s[..|s| - 1]) + Ones(s[|s| - 1])
  }

  lemma OnesInNext(s: Bytes, i: nat)
    requires i < |s|
    ensures OnesIn(s[..i + 1]) == OnesIn(s[..i]) + Ones(s[i])
  {
    assert s[..i + 1][..i] == s[..i];
  }

  lemma {:induction false} OnesInConcat(a: Bytes, b: Bytes)
    ensures OnesIn(a + b) == OnesIn(a) + OnesIn(b)
    decreases |b|
  {
    if b == [] {
      assert a + b == a;
    } else {
      var n := |b| - 1;
      OnesInConcat(a, b[..n]);
      assert (a + b)[..|a| + n] == a + b[..n] && (a + b)[|a| + n] == b[n];
    }
  }

  lemma BitInByte(s: Bytes, j: nat, i: nat)
    requires i < 8
    ensures BitAt(s, 8 * j + i) == Has(ByteAt(s, j), Mask(i))
  {
    assert (8 * j + i) / 8 == j && (8 * j + i) % 8 == i;
  }
}
