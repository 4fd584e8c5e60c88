/** bitops.c: the overflow checks of bit fields, with their 64-bit arithmetic. */
module BitfieldOverflow {
  import opened Options
  import opened Words
  import opened Bitfield

  datatype Overflow = Wrap | Sat | Fail

  function Max(signed: bool, bits: nat): int
    requires bits >= 1
  {
    if signed then Pow2(bits - 1) - 1 else Pow2(bits) - 1
  }

  function Min(signed: bool, bits: nat): int
    requires bits >= 1
  {
    if signed then -(Pow2(bits - 1) as int) else 0
  }

  predicate Fits(signed: bool, bits: nat, t: int)
    requires bits >= 1
  {
    Min(signed, bits) <= t <= Max(signed, bits)
  }

  function Wrapped(signed: bool, bits: nat, t: int): int
    requires bits >= 1
  {
    if signed then Signed(t % Pow2(bits), bits) else t % Pow2(bits)
  }

  /** What a field holds after being given the number t: the number itself if it fits; else the
      number that is equal modulo 2 to the width, the nearest one, or nothing new. */
  function Fitted(signed: bool, bits: nat, how: Overflow, t: int): Option<int>
    requires bits >= 1
  {
    if Fits(signed, bits, t) then Some(t)
    else match how
         case Wrap => Some(Wrapped(signed, bits, t))
         case Sat => Some(if t > Max(signed, bits) then Max(signed, bits) else Min(signed, bits))
         case Fail => None
  }

  // ----- arithmetic -----

  predicate IsI64(x: int) {
    -I63 <= x < I63
  }

  lemma ToI64Small(x: int)
    ensures IsI64(x) ==> ToI64(x) == x
    ensures I63 <= x < I63 + U64 ==> ToI64(x) == x - U64
  {
  }

  /** A width that divides the word: the word's own wrap-around does not matter. */
  lemma WordMod(t: int, bits: nat)
    requires bits <= 64
    ensures t % U64 % Pow2(bits) == t % Pow2(bits)
  {
    hide Pow2;
    Powers();
    var p, k := Pow2(bits), Pow2(64 - bits);
    PowAdd(bits, 64 - bits);
    var q := t / U64;
    var r := t % U64;
    assert t == U64 * q + r;
    assert r == p * (r / p) + r % p;
    assert U64 * q == p * (k * q) by {
      Regroup(p, k, q);
    }
    assert t == p * (k * q + r / p) + r % p by {
      assert p * (k * q + r / p) == p * (k * q) + p * (r / p);
    }
    ModUnique(t, p, k * q + r / p, r % p);
  }

  lemma Regroup(p: int, k: int, q: int)
    ensures p * k * q == p * (k * q)
  {
  }

  // ----- unsigned -----

  /** checkUnsignedBitfieldOverflow; unsigned fields have at most 63 bits. */
  method CheckUnsigned(value: nat, incr: int, bits: nat, how: Overflow) returns (overflow: int, limit: nat)
    requires 1 <= bits <= 63 && value < U64 && IsI64(incr)
    ensures value <= Max(false, bits) ==> (overflow == 0 <==> Fits(false, bits, value + incr))
    ensures value <= Max(false, bits) && overflow != 0 && !how.Fail? ==>
            Some(limit as int) == Fitted(false, bits, how, value + incr)
    ensures value > Max(false, bits) ==> overflow == 1
    ensures value > Max(false, bits) && how.Wrap? ==> limit == (value + incr) % Pow2(bits)
    ensures value > Max(false, bits) && how.Sat? ==> limit == Max(false, bits)
  {
    hide Pow2;
    Powers();
    Pow2Monotone(bits, 63);
    var max := Pow2(bits) - 1;
    var maxincr, minincr := ToI64(max - value), ToI64(0 - value);
    ToI64Small(max - value);
    ToI64Small(0 - value);
    WordMod(value + incr, bits);
    limit := 0;
    if value > max || (incr > 0 && incr > maxincr) {
      if how.Wrap? {
        limit := ToU64(value + incr) % Pow2(bits);
      } else if how.Sat? {
        limit := max;
      }
      return 1, limit;
    } else if incr < 0 && incr < minincr {
      if how.Wrap? {
        return 1, ToU64(value + incr) % Pow2(bits);
      } else if how.Sat? {
        limit := 0;
      }
      return -1, limit;
    }
    return 0, 0;
  }

  // ----- signed -----

  /** The wrap-around of checkSignedBitfieldOverflow. */
  method WrapSigned(value: int, incr: int, bits: nat) returns (limit: int)
    requires 1 <= bits <= 64
    ensures limit == Wrapped(true, bits, value + incr)
  {
    hide Pow2;
    Powers();
    var c := ToU64(ToU64(value) + ToU64(incr));
    SumMod(value, incr);
    WordMod(value + incr, bits);
    PowDouble(bits);
    if bits < 64 {
      var low := c % Pow2(bits);
      TopBit(low, bits);
      if low / Pow2(bits - 1) % 2 == 1 {
        limit := low - Pow2(bits);
      } else {
        limit := low;
      }
    } else {
      limit := ToI64(c);
    }
  }

  lemma SumMod(a: int, b: int)
    ensures ToU64(ToU64(a) + ToU64(b)) == ToU64(a + b)
  {
    assert a == U64 * (a / U64) + a % U64 && b == U64 * (b / U64) + b % U64;
    assert a + b == U64 * (a / U64 + b / U64) + (a % U64 + b % U64);
  }

  /** checkSignedBitfieldOverflow. */
  method CheckSigned(value: int, incr: int, bits: nat, how: Overflow) returns (overflow: int, limit: int)
    requires 1 <= bits <= 64 && IsI64(value) && IsI64(incr)
    ensures Fits(true, bits, value) ==> (overflow == 0 <==> Fits(true, bits, value + incr))
    ensures Fits(true, bits, value) && overflow != 0 && !how.Fail? ==>
            Some(limit) == Fitted(true, bits, how, value + incr)
    ensures !Fits(true, bits, value) && incr == 0 ==> overflow != 0
    ensures !Fits(true, bits, value) && incr == 0 && how.Wrap? ==> limit == Wrapped(true, bits, value)
    ensures !Fits(true, bits, value) && incr == 0 && how.Sat? ==>
              limit == if value > Max(true, bits) || value < Pow2(bits - 1) - I63 then Max(true, bits)
                       else Min(true, bits)
  {
    hide Pow2, Signed;
    Powers();
    var max: int := if bits == 64 then I63 - 1 else Pow2(bits - 1) - 1;
    var min := -max - 1;
    var side := SignedSide(value, incr, bits, max, min);
    limit := 0;
    if side == 1 {
      if how.Wrap? {
        limit := WrapSigned(value, incr, bits);
      } else if how.Sat? {
        limit := max;
      }
      return 1, limit;
    } else if side == -1 {
      if how.Wrap? {
        limit := WrapSigned(value, incr, bits);
        return 1, limit;
      } else if how.Sat? {
        limit := min;
      }
      return -1, limit;
    }
    return 0, 0;
  }

  /** On which side the sum leaves the range: the two conditions of the check. */
  method SignedSide(value: int, incr: int, bits: nat, max: int, min: int) returns (side: int)
    requires 1 <= bits <= 64 && IsI64(value) && IsI64(incr) && max == Max(true, bits) && min == Min(true, bits)
    ensures side == -1 || side == 0 || side == 1
    ensures min <= value <= max ==> side == if value + incr > max then 1 else if value + incr < min then -1 else 0
    ensures !(min <= value <= max) && incr == 0 ==>
            side == if value > max || value < Pow2(bits - 1) - I63 then 1 else -1
  {
    hide Pow2;
    Powers();
    PowBelow(bits);
    var maxincr, minincr := ToI64(max - value), ToI64(min - value);
    ToI64Small(max - value);
    ToI64Small(min - value);
    ToI64Big(min - value);
    if value > max || (bits != 64 && incr > maxincr) || (value >= 0 && incr > 0 && incr > maxincr) {
      return 1;
    }
    if value < min || (bits != 64 && incr < minincr) || (value < 0 && incr < 0 && incr < minincr) {
      return -1;
    }
    return 0;
  }

  lemma ToI64Big(x: int)
    ensures -I63 - U64 <= x < -I63 ==> ToI64(x) == x + U64
  {
  }

  lemma PowBelow(bits: nat)
    requires 1 <= bits <= 64
    ensures bits < 64 ==> Pow2(bits - 1) <= Pow2(62) && 2 * Pow2(62) == I63
  {
    hide Pow2;
    Powers();
    PowDouble(63);
    if bits < 64 {
      Pow2Monotone(bits - 1, 62);
    }
  }
}
