/** sds.c: quoting a string and splitting a line into arguments.

    A string is a C string: characters are bytes and none is NUL.
  */
module Sds {
  import opened Options

  predicate IsBytes(s: string) {
    forall i :: 0 <= i < |s| ==> 0 < s[i] as int < 256
  }

  predicate IsSpace(c: char) {
    c == ' ' || 9 <= c as int <= 13
  }

  predicate IsPrint(c: char) {
    32 <= c as int <= 126
  }

  // ----- sdscatrepr -----

  function HexDigit(n: nat): char
    requires n < 16
  {
    if n < 10 then '0' + n as char else 'a' + (n - 10) as char
  }

  predicate IsHexDigit(c: char) {
    '0' <= c <= '9' || 'a' <= c <= 'f' || 'A' <= c <= 'F'
  }

  function HexValue(c: char): (n: nat)
    requires IsHexDigit(c)
    ensures n < 16
  {
    if c <= '9' then c as int - '0' as int
    else if c <= 'F' then c as int - 'A' as int + 10
    else c as int - 'a' as int + 10
  }

  const ALERT: char := 7 as char
  const BACKSPACE: char := 8 as char

  /** How one byte is written inside double quotes. */
  function Escape(c: char): string {
    if c == '\\' || c == '\"' then ['\\', c]
    else if c == '\n' then ['\\', 'n']
    else if c == '\r' then ['\\', 'r']
    else if c == '\t' then ['\\', 't']
    else if c == ALERT then ['\\', 'a']
    else if c == BACKSPACE then ['\\', 'b']
    else if IsPrint(c) || c as int >= 256 then [c]
    else ['\\', 'x', HexDigit(c as int / 16), HexDigit(c as int % 16)]
  }

  function EscapeAll(s: string): string {
    if s == [] then [] else Escape(s[0]) + EscapeAll(s[1..])
  }

  function Repr(s: string): string {
    ['\"'] + EscapeAll(s) + ['\"']
  }

  /** sdsneedsrepr */
  predicate NeedsRepr(s: string) {
    exists i :: 0 <= i < |s| && (s[i] == '\\' || s[i] == '\"' || !IsPrint(s[i]) || IsSpace(s[i]))
  }

  // ----- sdssplitargs -----

  /** A token and the text after it, or None for unbalanced or misplaced quotes. */
  type Token = Option<(string, string)>

  predicate EndsToken(c: char) {
    c == ' ' || c == '\n' || c == '\r' || c == '\t'
  }

  function Unescape(c: char): char {
    match c
    case 'n' => '\n'
    case 'r' => '\r'
    case 't' => '\t'
    case 'b' => BACKSPACE
    case 'a' => ALERT
    case _ => c
  }

  /** Outside quotes. */
  function Plain(p: string, current: string): Token
    decreases |p|
  {
    if p == [] then Some((current, []))
    else if EndsToken(p[0]) then Some((current, p[1..]))
    else if p[0] == '\"' then Double(p[1..], current)
    else if p[0] == '\'' then Single(p[1..], current)
    else Plain(p[1..], current + [p[0]])
  }

  /** A closing quote must be followed by a space or by nothing. */
  function Close(p: string, current: string): Token
    requires p != []
  {
    if |p| > 1 && !IsSpace(p[1]) then None else Some((current, p[1..]))
  }

  /** Inside double quotes. */
  function Double(p: string, current: string): Token
    decreases |p|
  {
    if p == [] then None
    else if |p| >= 4 && p[0] == '\\' && p[1] == 'x' && IsHexDigit(p[2]) && IsHexDigit(p[3]) then
      Double(p[4..], current + [(HexValue(p[2]) * 16 + HexValue(p[3])) as char])
    else if |p| >= 2 && p[0] == '\\' then Double(p[2..], current + [Unescape(p[1])])
    else if p[0] == '\"' then Close(p, current)
    else Double(p[1..], current + [p[0]])
  }

  /** Inside single quotes. */
  function Single(p: string, current: string): Token
    decreases |p|
  {
    if p == [] then None
    else if |p| >= 2 && p[0] == '\\' && p[1] == '\'' then Single(p[2..], current + ['\''])
    else if p[0] == '\'' then Close(p, current)
    else Single(p[1..], current + [p[0]])
  }

  function SkipSpace(p: string): (r: string)
    ensures |r| <= |p| && (r != [] ==> !IsSpace(r[0]))
  {
    if p != [] && IsSpace(p[0]) then SkipSpace(p[1..]) else p
  }

  lemma {:induction false} SingleShrinks(p: string, current: string)
    ensures Single(p, current).Some? ==> |Single(p, current).value.1| < |p|
    decreases |p|
  {
    if p == [] {
    } else if |p| >= 2 && p[0] == '\\' && p[1] == '\'' {
      SingleShrinks(p[2..], current + ['\'']);
    } else if p[0] != '\'' {
      SingleShrinks(p[1..], current + [p[0]]);
    }
  }

  lemma {:induction false} DoubleShrinks(p: string, current: string)
    ensures Double(p, current).Some? ==> |Double(p, current).value.1| < |p|
    decreases |p|
  {
    if p == [] {
    } else if |p| >= 4 && p[0] == '\\' && p[1] == 'x' && IsHexDigit(p[2]) && IsHexDigit(p[3]) {
      DoubleShrinks(p[4..], current + [(HexValue(p[2]) * 16 + HexValue(p[3])) as char]);
    } else if |p| >= 2 && p[0] == '\\' {
      DoubleShrinks(p[2..], current + [Unescape(p[1])]);
    } else if p[0] != '\"' {
      DoubleShrinks(p[1..], current + [p[0]]);
    }
  }

  lemma {:induction false} PlainShrinks(p: string, current: string)
    ensures Plain(p, current).Some? && p != [] ==> |Plain(p, current).value.1| < |p|
    decreases |p|
  {
    if p == [] || EndsToken(p[0]) {
    } else if p[0] == '\"' {
      DoubleShrinks(p[1..], current);
    } else if p[0] == '\'' {
      SingleShrinks(p[1..], current);
    } else {
      PlainShrinks(p[1..], current + [p[0]]);
    }
  }

  function SplitArgs(line: string): Option<seq<string>>
    decreases |line|
  {
    var p := SkipSpace(line);
    if p == [] then Some([])
    else
      PlainShrinks(p, []);
      var token := Plain(p, []);
      if token.None? then None
      else
        var rest := SplitArgs(token.value.1);
        if rest.None? then None else Some([token.value.0] + rest.value)
  }

  // ----- round trips -----

  lemma HexRoundTrip(n: nat)
    requires n < 16
    ensures IsHexDigit(HexDigit(n)) && HexValue(HexDigit(n)) == n
  {
  }

  /** Reading back one escaped character. */
  lemma EscapeReads(c: char, tail: string, current: string)
    requires 0 < c as int < 256
    ensures Double(Escape(c) + tail, current) == Double(tail, current + [c])
  {
    var p := Escape(c) + tail;
    if |Escape(c)| == 1 {
      assert p[1..] == tail;
    } else if |Escape(c)| == 2 {
      assert p[2..] == tail && p[0] == '\\' && p[1] == Escape(c)[1];
    } else {
      var n := c as int;
      HexRoundTrip(n / 16);
      HexRoundTrip(n % 16);
      assert p[4..] == tail && p[0] == '\\' && p[1] == 'x' && p[2] == HexDigit(n / 16) && p[3] == HexDigit(n % 16);
      assert n / 16 * 16 + n % 16 == n;
    }
  }

  lemma CloseReads(tail: string, current: string)
    requires tail == [] || IsSpace(tail[0])
    ensures Double(['\"'] + tail, current) == Some((current, tail))
  {
    var p := ['\"'] + tail;
    assert p[1..] == tail;
  }

  lemma {:induction false} EscapeAllReads(s: string, tail: string, current: string)
    requires IsBytes(s)
    requires tail == [] || IsSpace(tail[0])
    ensures Double(EscapeAll(s) + (['\"'] + tail), current) == Some((current + s, tail))
    decreases |s|
  {
    hide Double, Escape;
    var end := ['\"'] + tail;
    if s == [] {
      assert EscapeAll(s) + end == end && current + s == current;
      CloseReads(tail, current);
    } else {
      var rest := EscapeAll(s[1..]) + end;
      assert EscapeAll(s) + end == Escape(s[0]) + rest;
      EscapeReads(s[0], rest, current);
      EscapeAllReads(s[1..], tail, current + [s[0]]);
      assert current + [s[0]] + s[1..] == current + s;
    }
  }

  /** A quoted string is read back as the string. */
  lemma ReprReads(s: string, tail: string)
    requires IsBytes(s)
    requires tail == [] || IsSpace(tail[0])
    ensures Plain(Repr(s) + tail, []) == Some((s, tail))
  {
    hide Double, EscapeAll;
    var p := Repr(s) + tail;
    assert p[0] == '\"' && p[1..] == EscapeAll(s) + (['\"'] + tail);
    EscapeAllReads(s, tail, []);
    assert [] + s == s;
  }

  /** Characters that stand for themselves outside quotes. */
  predicate IsPlain(s: string) {
    forall i :: 0 <= i < |s| ==> !EndsToken(s[i]) && s[i] != '\"' && s[i] != '\''
  }

  /** A nonempty argument that is read back as it is written. */
  predicate IsWord(s: string) {
    s != [] && !IsSpace(s[0]) && IsPlain(s)
  }

  lemma {:induction false} PlainReads(s: string, tail: string, current: string)
    requires IsPlain(s)
    ensures Plain(s + tail, current) == Plain(tail, current + s)
    decreases |s|
  {
    if s == [] {
      assert s + tail == tail && current + s == current;
    } else {
      assert (s + tail)[1..] == s[1..] + tail;
      PlainReads(s[1..], tail, current + [s[0]]);
      assert current + [s[0]] + s[1..] == current + s;
    }
  }

  function Prepend(s: string, rest: Option<seq<string>>): Option<seq<string>> {
    if rest.None? then None else Some([s] + rest.value)
  }

  /** An unquoted argument, the separator, and the remaining arguments. */
  lemma SplitPlain(s: string, tail: string)
    requires IsWord(s)
    ensures SplitArgs(s + [' '] + tail) == Prepend(s, SplitArgs(tail))
  {
    hide Plain;
    var p := s + [' '] + tail;
    assert p == s + ([' '] + tail) && SkipSpace(p) == p;
    PlainReads(s, [' '] + tail, []);
    PlainStops(tail, s);
    assert [] + s == s;
  }

  lemma PlainStops(tail: string, current: string)
    ensures Plain([' '] + tail, current) == Some((current, tail))
    ensures Plain([], current) == Some((current, []))
  {
    assert ([' '] + tail)[1..] == tail;
  }

  lemma SplitLast(s: string)
    requires IsWord(s)
    ensures SplitArgs(s) == Some([s])
  {
    hide Plain;
    assert s + [] == s && SkipSpace(s) == s && [] + s == s;
    PlainReads(s, [], []);
    PlainStops([], s);
    assert SplitArgs([]) == Some([]) && [s] + [] == [s];
  }

  lemma {:induction false} SingleShort(p: string, current: string)
    ensures Single(p, current).Some? ==> |Single(p, current).value.0| < |current| + |p|
    decreases |p|
  {
    if p == [] {
    } else if |p| >= 2 && p[0] == '\\' && p[1] == '\'' {
      SingleShort(p[2..], current + ['\'']);
    } else if p[0] != '\'' {
      SingleShort(p[1..], current + [p[0]]);
    }
  }

  lemma {:induction false} DoubleShort(p: string, current: string)
    ensures Double(p, current).Some? ==> |Double(p, current).value.0| < |current| + |p|
    decreases |p|
  {
    if p == [] {
    } else if |p| >= 4 && p[0] == '\\' && p[1] == 'x' && IsHexDigit(p[2]) && IsHexDigit(p[3]) {
      DoubleShort(p[4..], current + [(HexValue(p[2]) * 16 + HexValue(p[3])) as char]);
    } else if |p| >= 2 && p[0] == '\\' {
      DoubleShort(p[2..], current + [Unescape(p[1])]);
    } else if p[0] != '\"' {
      DoubleShort(p[1..], current + [p[0]]);
    }
  }

  /** An argument with a blank or a quote in it is read shorter than it is, if at all. */
  lemma {:induction false} PlainShort(p: string, current: string)
    requires !IsPlain(p)
    ensures Plain(p, current).Some? ==> |Plain(p, current).value.0| < |current| + |p|
    decreases |p|
  {
    if EndsToken(p[0]) {
    } else if p[0] == '\"' {
      DoubleShort(p[1..], current);
    } else if p[0] == '\'' {
      SingleShort(p[1..], current);
    } else {
      assert !IsPlain(p[1..]) by {
        var i :| 0 <= i < |p| && (EndsToken(p[i]) || p[i] == '\"' || p[i] == '\'');
        assert p[1..][i - 1] == p[i];
      }
      PlainShort(p[1..], current + [p[0]]);
    }
  }

  /** So exactly the plain arguments are read back as they are. */
  lemma SplitSame(s: string)
    requires s != [] && !IsSpace(s[0])
    ensures SplitArgs(s) == Some([s]) <==> IsPlain(s)
  {
    hide Plain, IsPlain;
    if IsPlain(s) {
      SplitLast(s);
    } else {
      PlainShort(s, []);
      assert SkipSpace(s) == s;
      assert SplitArgs(s).Some? ==> SplitArgs(s).value != [] && |SplitArgs(s).value[0]| < |s|;
    }
  }

  lemma PlainAtMost(p: string)
    ensures Plain(p, []).Some? ==> |Plain(p, []).value.0| <= |p|
  {
    hide Plain, IsPlain;
    if IsPlain(p) {
      PlainReads(p, [], []);
      PlainStops([], p);
      assert p + [] == p && [] + p == p;
    } else {
      PlainShort(p, []);
    }
  }

  /** Arguments are not longer than the line, and shorter than one that is not plain. */
  lemma {:induction false} SplitLengths(line: string)
    ensures SplitArgs(line).Some? ==> forall i :: 0 <= i < |SplitArgs(line).value| ==>
            |SplitArgs(line).value[i]| <= |line|
    ensures SplitArgs(line).Some? && line != [] && !IsSpace(line[0]) && !IsPlain(line) ==>
              forall i :: 0 <= i < |SplitArgs(line).value| ==> |SplitArgs(line).value[i]| < |line|
    decreases |line|
  {
    hide Plain, IsPlain;
    var p := SkipSpace(line);
    if p != [] {
      PlainShrinks(p, []);
      PlainAtMost(p);
      var token := Plain(p, []);
      if token.Some? {
        SplitLengths(token.value.1);
      }
      if line != [] && !IsSpace(line[0]) && !IsPlain(line) {
        assert p == line;
        PlainShort(p, []);
      }
    }
  }

  /** Words, a blank, and the rest of the line. */
  lemma {:induction false} SplitBehind(args: seq<string>, tail: string)
    requires forall i :: 0 <= i < |args| ==> IsWord(args[i])
    ensures args != [] ==> SplitArgs(Join(args) + [' '] + tail)
                           == if SplitArgs(tail).None? then None else Some(args + SplitArgs(tail).value)
    decreases |args|
  {
    hide SplitArgs, IsWord;
    if |args| == 1 {
      SplitPlain(args[0], tail);
      assert args == [args[0]];
    } else if |args| > 1 {
      var rest := Join(args[1..]) + [' '] + tail;
      assert Join(args) + [' '] + tail == args[0] + [' '] + rest;
      SplitPlain(args[0], rest);
      SplitBehind(args[1..], tail);
      if SplitArgs(tail).Some? {
        assert [args[0]] + (args[1..] + SplitArgs(tail).value) == args + SplitArgs(tail).value;
      }
    }
  }

  lemma SplitQuoted(s: string, tail: string)
    requires IsBytes(s)
    ensures SplitArgs(Repr(s) + [' '] + tail) == Prepend(s, SplitArgs(tail))
  {
    hide Plain, EscapeAll;
    var p := Repr(s) + [' '] + tail;
    assert p == Repr(s) + ([' '] + tail) && p[0] == '\"' && SkipSpace(p) == p;
    ReprReads(s, [' '] + tail);
    SplitSkips(tail);
  }

  lemma SplitSkips(tail: string)
    ensures SplitArgs([' '] + tail) == SplitArgs(tail)
  {
    assert ([' '] + tail)[1..] == tail;
    assert SkipSpace([' '] + tail) == SkipSpace(tail);
  }

  /** Arguments separated by single spaces. */
  function Join(args: seq<string>): string {
    if args == [] then [] else if |args| == 1 then args[0] else args[0] + [' '] + Join(args[1..])
  }

  /** Arguments without blanks or quotes survive joining and splitting. */
  lemma {:induction false} SplitJoin(args: seq<string>)
    requires forall i :: 0 <= i < |args| ==> IsWord(args[i])
    ensures SplitArgs(Join(args)) == Some(args)
    decreases |args|
  {
    if args == [] {
      assert SplitArgs([]) == Some([]);
    } else if |args| == 1 {
      SplitLast(args[0]);
      assert args == [args[0]];
    } else {
      hide SplitArgs;
      SplitJoin(args[1..]);
      SplitPlain(args[0], Join(args[1..]));
      assert args == [args[0]] + args[1..];
    }
  }

  // ----- the single quote is not escaped -----

  predicate NoEscapes(s: string) {
    forall i :: 0 <= i < |s| ==> s[i] != '\\' && s[i] != '\"'
  }

  lemma {:induction false} SingleDropsQuote(p: string, current: string)
    requires NoEscapes(p) && '\'' !in current
    ensures Single(p, current).Some? ==> '\'' !in Single(p, current).value.0
    decreases |p|
  {
    if p != [] && p[0] != '\'' {
      SingleDropsQuote(p[1..], current + [p[0]]);
    }
  }

  lemma {:induction false} PlainDropsQuote(p: string, current: string)
    requires NoEscapes(p) && '\'' !in current
    ensures Plain(p, current).Some? ==> '\'' !in Plain(p, current).value.0
    decreases |p|
  {
    if p == [] || EndsToken(p[0]) {
    } else if p[0] == '\'' {
      SingleDropsQuote(p[1..], current);
    } else {
      PlainDropsQuote(p[1..], current + [p[0]]);
    }
  }

  /** No argument of an unescaped line contains a single quote. */
  lemma {:induction false} SplitDropsQuote(line: string)
    requires NoEscapes(line)
    ensures SplitArgs(line).Some? ==> forall i :: 0 <= i < |SplitArgs(line).value| ==> '\'' !in SplitArgs(line).value[i]
    decreases |line|
  {
    hide Plain;
    var p := SkipSpace(line);
    SkipSpaceSuffix(line);
    if p != [] {
      PlainShrinks(p, []);
      PlainDropsQuote(p, []);
      var token := Plain(p, []);
      if token.Some? {
        PlainSuffix(p, []);
        SplitDropsQuote(token.value.1);
      }
    }
  }

  lemma {:induction false} SkipSpaceSuffix(p: string)
    requires NoEscapes(p)
    ensures NoEscapes(SkipSpace(p))
  {
    if p != [] && IsSpace(p[0]) {
      SkipSpaceSuffix(p[1..]);
    }
  }

  lemma {:induction false} SingleSuffix(p: string, current: string)
    requires NoEscapes(p)
    ensures Single(p, current).Some? ==> NoEscapes(Single(p, current).value.1)
    decreases |p|
  {
    if p != [] && p[0] != '\'' {
      SingleSuffix(p[1..], current + [p[0]]);
    }
  }

  lemma {:induction false} PlainSuffix(p: string, current: string)
    requires NoEscapes(p)
    ensures Plain(p, current).Some? ==> NoEscapes(Plain(p, current).value.1)
    decreases |p|
  {
    if p == [] || EndsToken(p[0]) {
    } else if p[0] == '\'' {
      SingleSuffix(p[1..], current);
    } else {
      PlainSuffix(p[1..], current + [p[0]]);
    }
  }
}
