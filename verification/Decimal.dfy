/** Decimal integers as text: printing, and the atoi family of readers. */
module Decimal {

  predicate IsDigit(c: char) {
    '0' <= c <= '9'
  }

  function DigitChar(n: nat): (c: char)
    requires n < 10
    ensures IsDigit(c) && DigitValue(c) == n
  {
    '0' + n as char
  }

  function DigitValue(c: char): (n: nat)
    requires IsDigit(c)
    ensures n < 10
  {
    c as int - '0' as int
  }

  function Digits(n: nat): (s: string)
    ensures s != [] && forall i :: 0 <= i < |s| ==> IsDigit(s[i])
  {
    if n < 10 then [DigitChar(n)] else Digits(n / 10) + [DigitChar(n % 10)]
  }

  /** `%lld` */
  function Dec(n: int): (s: string)
    ensures s != [] && forall i :: 0 <= i < |s| ==> IsDigit(s[i]) || s[i] == '-'
  {
    if n < 0 then ['-'] + Digits(-n) else Digits(n)
  }

  /** The value of the leading digits of `s`, continuing from `acc`. */
  function ReadDigits(s: string, acc: nat): nat
    decreases |s|
  {
    if s == [] || !IsDigit(s[0]) then acc else ReadDigits(s[1..], 10 * acc + DigitValue(s[0]))
  }

  function SkipBlanks(s: string): string {
    if s != [] && (s[0] == ' ' || 9 <= s[0] as int <= 13) then SkipBlanks(s[1..]) else s
  }

  /** atoi, atoll, strtol: leading blanks, an optional sign, digits; overflow is undefined in C
      and does not occur here. */
  function Atoi(s: string): int {
    var t := SkipBlanks(s);
    if t != [] && t[0] == '-' then var n: int := ReadDigits(t[1..], 0); -n
    else if t != [] && t[0] == '+' then ReadDigits(t[1..], 0)
    else ReadDigits(t, 0)
  }

  lemma {:induction false} ReadDigitsConcat(a: string, tail: string, acc: nat)
    requires forall i :: 0 <= i < |a| ==> IsDigit(a[i])
    ensures ReadDigits(a + tail, acc) == ReadDigits(tail, ReadDigits(a, acc))
    decreases |a|
  {
    if a == [] {
      assert a + tail == tail;
    } else {
      assert (a + tail)[1..] == a[1..] + tail;
      ReadDigitsConcat(a[1..], tail, 10 * acc + DigitValue(a[0]));
    }
  }

  lemma {:induction false} ReadDigitsOf(n: nat)
    ensures ReadDigits(Digits(n), 0) == n
  {
    if n < 10 {
      assert [DigitChar(n)][1..] == [];
    } else {
      ReadDigitsOf(n / 10);
      var last := [DigitChar(n % 10)];
      ReadDigitsConcat(Digits(n / 10), last, 0);
      assert last[1..] == [];
      assert ReadDigits(last, n / 10) == 10 * (n / 10) + n % 10;
    }
  }

  /** Text that does not continue the number. */
  predicate Delimited(tail: string) {
    tail == [] || !IsDigit(tail[0])
  }

  lemma AtoiOfDec(n: int, tail: string)
    requires Delimited(tail)
    ensures Atoi(Dec(n) + tail) == n
  {
    var abs := if n < 0 then -n else n;
    ReadDigitsOf(abs);
    ReadDigitsConcat(Digits(abs), tail, 0);
    assert ReadDigits(tail, abs) == abs;
    var s := Dec(n) + tail;
    hide Digits, ReadDigits;
    assert SkipBlanks(s) == s;
    if n < 0 {
      assert s[0] == '-' && s[1..] == Digits(abs) + tail;
    } else {
      assert s == Digits(abs) + tail && IsDigit(s[0]);
    }
  }
}
