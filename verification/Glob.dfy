/** util.c: the glob matcher stringmatchlen, case-sensitive.

    A call returns whether the pattern matched and the new value of the flag that lets callers
    above it stop trying longer matches for an earlier star.
  */
module Glob {

  datatype Verdict = Verdict(matched: bool, skipLongerMatches: bool)

  /** Steps over leading stars. */
  function DropStars(p: string): (q: string)
    ensures |q| <= |p|
  {
    if p != [] && p[0] == '*' then DropStars(p[1..]) else p
  }

  /** A character class, read after its opening bracket and its optional caret: whether `c` is
      listed, and the pattern from the closing bracket (or its absence) on. */
  function Class(p: string, c: char, found: bool): (r: (bool, string))
    ensures |r.1| <= |p|
    decreases |p|
  {
    if |p| >= 2 && p[0] == '\\' then Class(p[2..], c, found || p[1] == c)
    else if p == [] then (found, [])
    else if p[0] == ']' then (found, p[1..])
    else if |p| >= 3 && p[1] == '-' then
      var low, high := if p[0] <= p[2] then p[0] else p[2], if p[0] <= p[2] then p[2] else p[0];
      Class(p[3..], c, found || low <= c <= high)
    else Class(p[1..], c, found || p[0] == c)
  }

  /** The body of the loop once a character of the string has been consumed. */
  function After(p: string, s: string, skip: bool, nesting: nat): Verdict
    decreases |p|, |s|, 2
  {
    if s == [] then Verdict(DropStars(p) == [], skip) else Loop(p, s, skip, nesting)
  }

  function Loop(p: string, s: string, skip: bool, nesting: nat): Verdict
    decreases |p|, |s|, 1
  {
    if p == [] || s == [] then Verdict(p == [] && s == [], skip)
    else match p[0]
         case '*' =>
           var rest := DropStars(p[1..]);
           if rest == [] then Verdict(true, skip) else Star(rest, s, skip, nesting)
         case '?' => After(p[1..], s[1..], skip, nesting)
         case '[' =>
           var negated := |p| >= 2 && p[1] == '^';
           var (found, rest) := Class(p[if negated then 2 else 1..], s[0], false);
           if found == negated then Verdict(false, skip) else After(rest, s[1..], skip, nesting)
         case '\\' =>
           var q := if |p| >= 2 then p[1..] else p;
           if q[0] != s[0] then Verdict(false, skip) else After(q[1..], s[1..], skip, nesting)
         case _ =>
           if p[0] != s[0] then Verdict(false, skip) else After(p[1..], s[1..], skip, nesting)
  }

  /** Tries the rest of the pattern behind a star at every position. */
  function Star(rest: string, s: string, skip: bool, nesting: nat): Verdict
    decreases |rest|, |s|, 4
  {
    if s == [] then Verdict(false, true)
    else
      var v := Call(rest, s, skip, nesting + 1);
      if v.matched || v.skipLongerMatches then v
      else Star(rest, s[1..], v.skipLongerMatches, nesting)
  }

  /** One nested call; nesting is bounded. */
  function Call(p: string, s: string, skip: bool, nesting: nat): Verdict
    decreases |p|, |s|, 3
  {
    if nesting > 1000 then Verdict(false, skip) else Loop(p, s, skip, nesting)
  }

  predicate Matches(pattern: string, key: string) {
    Call(pattern, key, false, 0).matched
  }

  predicate Special(c: char) {
    c == '*' || c == '?' || c == '[' || c == '\\'
  }

  /** A matched string starts with the pattern's literal prefix. */
  lemma {:induction false} LiteralPrefix(p: string, s: string, skip: bool, nesting: nat, n: nat)
    requires n <= |p| && forall i :: 0 <= i < n ==> !Special(p[i])
    requires Loop(p, s, skip, nesting).matched
    ensures n <= |s| && s[..n] == p[..n]
    decreases n
  {
    if n > 0 {
      assert p[0] == s[0];
      if s[1..] == [] {
        LiteralKept(p[1..], n - 1);
      } else {
        LiteralPrefix(p[1..], s[1..], skip, nesting, n - 1);
      }
      assert p[..n] == [p[0]] + p[1..][..n - 1];
    }
  }

  lemma LiteralKept(p: string, n: nat)
    requires n <= |p| && forall i :: 0 <= i < n ==> !Special(p[i])
    ensures n > 0 ==> DropStars(p) != []
  {
    if n > 0 {
      assert !Special(p[0]);
    }
  }

  /** A pattern without special characters matches itself only. */
  lemma {:induction false} LiteralWhole(p: string, s: string, skip: bool, nesting: nat)
    requires forall i :: 0 <= i < |p| ==> !Special(p[i])
    ensures Loop(p, s, skip, nesting).matched <==> s == p
    decreases |p|
  {
    if p != [] && s != [] {
      assert !Special(p[0]);
      if s[1..] == [] {
        if p[1..] != [] {
          assert !Special(p[1]);
        }
      } else {
        LiteralWhole(p[1..], s[1..], skip, nesting);
      }
      if p[0] == s[0] && p[1..] == s[1..] {
        assert p == [p[0]] + p[1..] && s == [s[0]] + s[1..];
      }
    }
  }
}
