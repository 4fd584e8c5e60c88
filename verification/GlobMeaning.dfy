/** util.c: what the glob matcher decides. */
module GlobMeaning {
  import opened Glob

  /** A range of characters in a class. */
  datatype Range = Range(low: char, high: char)

  /** A pattern is a list of tokens; all but the star stand for one character. */
  datatype Token = AnyString | AnyChar | OneOf(negated: bool, ranges: seq<Range>)

  /** The ranges of a class, read behind its opening bracket and caret, and the pattern behind it. */
  function Ranges(p: string): (r: (seq<Range>, string))
    ensures |r.1| <= |p|
    decreases |p|
  {
    if p == [] then ([], [])
    else if |p| >= 2 && p[0] == '\\' then
      var (more, rest) := Ranges(p[2..]);
      ([Range(p[1], p[1])] + more, rest)
    else if p[0] == ']' then ([], p[1..])
    else if |p| >= 3 && p[1] == '-' then
      var (more, rest) := Ranges(p[3..]);
      ([if p[0] <= p[2] then Range(p[0], p[2]) else Range(p[2], p[0])] + more, rest)
    else
      var (more, rest) := Ranges(p[1..]);
      ([Range(p[0], p[0])] + more, rest)
  }

  function Literal(c: char): Token {
    OneOf(false, [Range(c, c)])
  }

  function Tokens(p: string): seq<Token>
    decreases |p|
  {
    if p == [] then []
    else if p[0] == '*' then [AnyString] + Tokens(p[1..])
    else if p[0] == '?' then [AnyChar] + Tokens(p[1..])
    else if p[0] == '[' then
      var negated := |p| > 1 && p[1] == '^';
      var (ranges, rest) := Ranges(p[if negated then 2 else 1..]);
      [OneOf(negated, ranges)] + Tokens(rest)
    else if p[0] == '\\' && |p| > 1 then [Literal(p[1])] + Tokens(p[2..])
    else [Literal(p[0])] + Tokens(p[1..])
  }

  predicate InRanges(ranges: seq<Range>, c: char) {
    exists i :: 0 <= i < |ranges| && ranges[i].low <= c <= ranges[i].high
  }

  predicate Accepts(t: Token, c: char)
    requires !t.AnyString?
  {
    t.AnyChar? || InRanges(t.ranges, c) != t.negated
  }

  /** A star stands for any number of characters, every other token for one. */
  ghost predicate Fits(tokens: seq<Token>, s: string)
    decreases |tokens|
  {
    if tokens == [] then s == []
    else if tokens[0].AnyString? then exists k :: 0 <= k <= |s| && Fits(tokens[1..], s[k..])
    else s != [] && Accepts(tokens[0], s[0]) && Fits(tokens[1..], s[1..])
  }

  /** The groups of stars that something comes behind. */
  function Groups(tokens: seq<Token>): nat {
    if |tokens| < 2 then 0
    else (if tokens[0].AnyString? && !tokens[1].AnyString? then 1 else 0) + Groups(tokens[1..])
  }

  /** The tokens fit, and there are not more groups than calls may be nested. */
  ghost predicate Found(tokens: seq<Token>, s: string, nesting: nat) {
    Fits(tokens, s) && nesting + Groups(tokens) <= 1000
  }

  /** No suffix fits. */
  ghost predicate Hopeless(tokens: seq<Token>, s: string, nesting: nat) {
    forall k :: 0 <= k <= |s| ==> !Found(tokens, s[k..], nesting)
  }

  // ----- classes -----

  lemma InRangesMore(r: Range, more: seq<Range>, c: char)
    ensures InRanges([r] + more, c) <==> r.low <= c <= r.high || InRanges(more, c)
  {
    var all := [r] + more;
    assert all[0] == r && forall i :: 0 <= i < |more| ==> all[i + 1] == more[i];
    if InRanges(more, c) {
      var i :| 0 <= i < |more| && more[i].low <= c <= more[i].high;
      assert all[i + 1] == more[i];
    }
  }

  lemma {:induction false} ClassIsRanges(p: string, c: char, found: bool)
    ensures Class(p, c, found) == (found || InRanges(Ranges(p).0, c), Ranges(p).1)
    decreases |p|
  {
    hide InRanges;
    if p == [] || (p[0] == ']' && !(|p| >= 2 && p[0] == '\\')) {
      NoRanges(c);
    } else if |p| >= 2 && p[0] == '\\' {
      ClassIsRanges(p[2..], c, found || p[1] == c);
      InRangesMore(Range(p[1], p[1]), Ranges(p[2..]).0, c);
    } else if |p| >= 3 && p[1] == '-' {
      var r := if p[0] <= p[2] then Range(p[0], p[2]) else Range(p[2], p[0]);
      ClassIsRanges(p[3..], c, found || r.low <= c <= r.high);
      InRangesMore(r, Ranges(p[3..]).0, c);
    } else {
      ClassIsRanges(p[1..], c, found || p[0] == c);
      InRangesMore(Range(p[0], p[0]), Ranges(p[1..]).0, c);
    }
  }

  lemma NoRanges(c: char)
    ensures !InRanges([], c)
  {
  }

  lemma LiteralAccepts(l: char, c: char)
    ensures Accepts(Literal(l), c) <==> c == l
  {
    InRangesMore(Range(l, l), [], c);
    NoRanges(c);
    assert [Range(l, l)] + [] == [Range(l, l)];
  }

  // ----- stars -----

  lemma {:induction false} StarsDropped(p: string)
    ensures var q := DropStars(p);
            && (q == [] ==> Groups(Tokens(p)) == 0 && Fits(Tokens(p), []))
            && (q != [] ==> q[0] != '*' && Tokens(q) != [] && !Tokens(q)[0].AnyString? && !Fits(Tokens(p), []))
    decreases |p|
  {
    if p != [] && p[0] == '*' {
      StarsDropped(p[1..]);
      assert Tokens(p)[1..] == Tokens(p[1..]);
      var none: string := [];
      assert none[0..] == none;
      if DropStars(p) == [] && p[1..] != [] {
        assert p[1] == '*';
      }
    }
  }

  /** Any number of stars is one star. */
  lemma {:induction false} StarsAsOne(p: string, s: string)
    requires p != [] && p[0] == '*' && DropStars(p[1..]) != []
    ensures var rest := DropStars(p[1..]);
            && Groups(Tokens(p)) == 1 + Groups(Tokens(rest))
            && (Fits(Tokens(p), s) <==> exists k :: 0 <= k <= |s| && Fits(Tokens(rest), s[k..]))
    decreases |p|
  {
    var rest := DropStars(p[1..]);
    StarsDropped(p[1..]);
    assert Tokens(p)[1..] == Tokens(p[1..]);
    if p[1] == '*' {
      forall k | 0 <= k <= |s|
        ensures Fits(Tokens(p[1..]), s[k..]) <==> exists j :: 0 <= j <= |s[k..]| && Fits(Tokens(rest), s[k..][j..])
      {
        StarsAsOne(p[1..], s[k..]);
      }
      StarsAsOne(p[1..], s);
      Suffixes(Tokens(rest), s);
      assert Tokens(p[1..])[0].AnyString?;
    }
  }

  lemma Suffixes(tokens: seq<Token>, s: string)
    ensures (exists k :: 0 <= k <= |s| && exists j :: 0 <= j <= |s[k..]| && Fits(tokens, s[k..][j..]))
            <==> exists k :: 0 <= k <= |s| && Fits(tokens, s[k..])
  {
    hide Fits;
    forall k, j | 0 <= k <= |s| && 0 <= j <= |s[k..]|
      ensures s[k..][j..] == s[k + j..]
    {
    }
    if k :| 0 <= k <= |s| && Fits(tokens, s[k..]) {
      assert s[k..][0..] == s[k..];
    }
  }

  // ----- the matcher -----

  /** A verdict is right, and trying longer matches is given up only when no suffix fits. */
  ghost predicate Right(v: Verdict, tokens: seq<Token>, s: string, nesting: nat) {
    && (v.matched <==> Found(tokens, s, nesting))
    && (v.skipLongerMatches ==> Hopeless(tokens, s, nesting))
  }

  /** One token that stands for one character. */
  lemma OneToken(t: Token, tokens: seq<Token>, s: string, nesting: nat)
    requires !t.AnyString? && s != []
    ensures Found([t] + tokens, s, nesting) <==> Accepts(t, s[0]) && Found(tokens, s[1..], nesting)
    ensures Hopeless(tokens, s[1..], nesting) ==> Hopeless([t] + tokens, s, nesting)
  {
    var all := [t] + tokens;
    assert all[1..] == tokens;
    assert Groups(all) == Groups(tokens);
    if Hopeless(tokens, s[1..], nesting) {
      forall k | 0 <= k <= |s|
        ensures !Found(all, s[k..], nesting)
      {
        if k < |s| {
          assert s[k..][1..] == s[1..][k..];
        }
      }
    }
  }

  /** The token at the head of a pattern that does not begin with a star, and whether it accepts a
      character, as the loop finds it. */
  lemma HeadToken(p: string, c: char) returns (t: Token, rest: string)
    requires p != [] && p[0] != '*'
    ensures !t.AnyString? && |rest| < |p| && Tokens(p) == [t] + Tokens(rest)
    ensures forall s: string, skip, nesting: nat :: s != [] && s[0] == c ==>
              Loop(p, s, skip, nesting)
              == if Accepts(t, c) then After(rest, s[1..], skip, nesting) else Verdict(false, skip)
  {
    hide After, InRanges;
    if p[0] == '?' {
      t, rest := AnyChar, p[1..];
    } else if p[0] == '[' {
      var negated := |p| > 1 && p[1] == '^';
      var inner := p[if negated then 2 else 1..];
      ClassIsRanges(inner, c, false);
      t, rest := OneOf(negated, Ranges(inner).0), Ranges(inner).1;
    } else if p[0] == '\\' && |p| > 1 {
      t, rest := Literal(p[1]), p[2..];
      LiteralAccepts(p[1], c);
      assert p[1..][0] == p[1] && p[1..][1..] == p[2..];
    } else {
      t, rest := Literal(p[0]), p[1..];
      LiteralAccepts(p[0], c);
    }
  }

  lemma OnlyStars(p: string, s: string, nesting: nat)
    requires p != [] && p[0] == '*' && DropStars(p[1..]) == [] && nesting <= 1000
    ensures Found(Tokens(p), s, nesting)
  {
    StarsDropped(p);
    StarsDropped(p[1..]);
    assert Tokens(p)[1..] == Tokens(p[1..]) && s[|s|..] == [];
  }

  lemma LeadingStars(p: string, s: string, nesting: nat)
    requires p != [] && p[0] == '*' && DropStars(p[1..]) != []
    ensures var rest := Tokens(DropStars(p[1..]));
            && (Found(Tokens(p), s, nesting) <==> !Hopeless(rest, s, nesting + 1))
            && (Hopeless(rest, s, nesting + 1) ==> Hopeless(Tokens(p), s, nesting))
  {
    hide Fits, Tokens, Groups, DropStars;
    var rest := Tokens(DropStars(p[1..]));
    StarsAsOne(p, s);
    if Hopeless(rest, s, nesting + 1) {
      forall k | 0 <= k <= |s|
        ensures !Found(Tokens(p), s[k..], nesting)
      {
        StarsAsOne(p, s[k..]);
        forall j | 0 <= j <= |s[k..]|
          ensures !Found(rest, s[k..][j..], nesting + 1)
        {
          assert s[k..][j..] == s[k + j..];
        }
      }
    }
  }

  lemma EmptyString(tokens: seq<Token>, nesting: nat)
    requires tokens != [] && !tokens[0].AnyString?
    ensures Hopeless(tokens, [], nesting)
  {
  }

  lemma TooDeep(tokens: seq<Token>, s: string, nesting: nat)
    requires nesting > 1000
    ensures Hopeless(tokens, s, nesting) && !Found(tokens, s, nesting)
  {
  }

  lemma HopelessStep(tokens: seq<Token>, s: string, nesting: nat)
    requires s != []
    ensures Hopeless(tokens, s, nesting) <==> !Found(tokens, s, nesting) && Hopeless(tokens, s[1..], nesting)
  {
    hide Found;
    assert s[0..] == s;
    assert forall k :: 0 <= k <= |s| - 1 ==> s[1..][k..] == s[k + 1..];
    if Hopeless(tokens, s, nesting) {
      assert !Found(tokens, s[0..], nesting);
    }
    if !Found(tokens, s, nesting) && Hopeless(tokens, s[1..], nesting) {
      forall k | 0 <= k <= |s|
        ensures !Found(tokens, s[k..], nesting)
      {
        if k > 0 {
          assert s[1..][k - 1..] == s[k..];
        }
      }
    }
  }

  lemma {:induction false} LoopExact(p: string, s: string, nesting: nat)
    requires s != [] && nesting <= 1000
    ensures Right(Loop(p, s, false, nesting), Tokens(p), s, nesting)
    decreases |p|, |s|, 1
  {
    hide Hopeless, Accepts;
    if p == [] {
      assert !Found(Tokens(p), s, nesting);
    } else if p[0] == '*' {
      var rest := DropStars(p[1..]);
      if rest == [] {
        OnlyStars(p, s, nesting);
      } else {
        StarsDropped(p[1..]);
        StarExact(rest, s, nesting);
        LeadingStars(p, s, nesting);
      }
    } else {
      var t, rest := HeadToken(p, s[0]);
      OneToken(t, Tokens(rest), s, nesting);
      if Accepts(t, s[0]) {
        AfterExact(rest, s[1..], nesting);
      }
    }
  }

  lemma {:induction false} AfterExact(p: string, s: string, nesting: nat)
    requires nesting <= 1000
    ensures Right(After(p, s, false, nesting), Tokens(p), s, nesting)
    decreases |p|, |s|, 2
  {
    if s == [] {
      StarsDropped(p);
    } else {
      LoopExact(p, s, nesting);
    }
  }

  /** Behind a star the rest is tried at every position. */
  lemma {:induction false} StarExact(rest: string, s: string, nesting: nat)
    requires nesting <= 1000 && Tokens(rest) != [] && !Tokens(rest)[0].AnyString?
    ensures var v := Star(rest, s, false, nesting);
            && (v.matched <==> !Hopeless(Tokens(rest), s, nesting + 1))
            && (v.skipLongerMatches ==> !v.matched)
    decreases |rest|, |s|, 4
  {
    hide Found;
    if s == [] {
      EmptyString(Tokens(rest), nesting + 1);
    } else {
      HopelessStep(Tokens(rest), s, nesting + 1);
      if nesting + 1 <= 1000 {
        LoopExact(rest, s, nesting + 1);
      } else {
        TooDeep(Tokens(rest), s, nesting + 1);
      }
      StarExact(rest, s[1..], nesting);
    }
  }

  /** stringmatchlen: a nonempty string is matched exactly if the tokens fit it and at most 1000
      groups of stars have something behind them; the empty string only by the empty pattern. */
  lemma MatchesExactly(p: string, s: string)
    ensures Matches(p, s) <==> if s == [] then p == [] else Fits(Tokens(p), s) && Groups(Tokens(p)) <= 1000
  {
    assert Matches(p, s) == Loop(p, s, false, 0).matched;
    if s != [] {
      LoopExact(p, s, 0);
      assert Found(Tokens(p), s, 0) <==> Fits(Tokens(p), s) && Groups(Tokens(p)) <= 1000;
    }
  }

  /** So a star does not match the empty string. */
  lemma StarAndNothing()
    ensures !Matches("*", "") && Fits(Tokens("*"), "")
  {
    MatchesExactly("*", "");
    StarsDropped("*");
  }
}
