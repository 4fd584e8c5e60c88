/** aof.c: which manifests aofLoadManifestFromFile accepts, and what it makes of their lines. */
module AofManifestLines {
  import opened Options
  import opened Letters
  import opened Sds
  import opened Decimal
  import opened Stdio
  import opened AofManifestText

  /** The lines of one type, in order. */
  function OfKind(lines: seq<Line>, kind: char): seq<Line> {
    if lines == [] then []
    else OfKind(lines[..|lines| - 1], kind)
         + if lines[|lines| - 1].kind == kind then [lines[|lines| - 1]] else []
  }

  ghost predicate Rising(lines: seq<Line>) {
    && (forall i :: 0 <= i < |lines| ==> lines[i].number > 0)
    && (forall i, j :: 0 <= i < j < |lines| ==> lines[i].number < lines[j].number)
  }

  ghost predicate Kinds(lines: seq<Line>) {
    forall i :: 0 <= i < |lines| ==> lines[i].kind in {'b', 'h', 'i'}
  }

  /** At most one BASE, INCR numbers that rise from 1 on, and no other types. */
  ghost predicate Fileable(lines: seq<Line>) {
    |OfKind(lines, 'b')| <= 1 && Rising(OfKind(lines, 'i')) && Kinds(lines)
  }

  /** The manifest of some lines. */
  function Filed(lines: seq<Line>): Lines {
    var b, i := OfKind(lines, 'b'), OfKind(lines, 'i');
    Lines(if b == [] then None else Some(b[0]), OfKind(lines, 'h'), i, if b == [] then 0 else b[0].number,
          if i == [] then 0 else i[|i| - 1].number)
  }

  lemma OfKindNext(lines: seq<Line>, l: Line, kind: char)
    ensures OfKind(lines + [l], kind) == OfKind(lines, kind) + if l.kind == kind then [l] else []
  {
    assert (lines + [l])[..|lines|] == lines;
  }

  lemma {:induction false} OfKindHas(lines: seq<Line>, kind: char)
    ensures forall l :: l in OfKind(lines, kind) <==> l in lines && l.kind == kind
    decreases |lines|
  {
    if lines != [] {
      OfKindHas(lines[..|lines| - 1], kind);
      assert lines == lines[..|lines| - 1] + [lines[|lines| - 1]];
    }
  }

  /** A second BASE is refused, an INCR whose number is not above those before it, and a line of
      another type; any other line is filed. */
  lemma AddLineExact(lines: seq<Line>, l: Line)
    requires Fileable(lines)
    ensures AddLine(Filed(lines), l)
            == if l.kind !in {'b', 'h', 'i'} then Err(UnknownType)
               else if l.kind == 'b' && (exists x :: x in lines && x.kind == 'b') then Err(DuplicateBase)
               else if l.kind == 'i' && l.number <= 0 then Err(NotMonotonic)
               else if l.kind == 'i' && (exists x :: x in lines && x.kind == 'i' && x.number >= l.number)
               then Err(NotMonotonic)
               else Ok(Filed(lines + [l]))
    ensures AddLine(Filed(lines), l).Ok? <==> Fileable(lines + [l])
  {
    hide OfKind, Fileable, Rising;
    FiledNext(lines, l);
    FileableNext(lines, l);
    BaseKnown(lines);
    IncrKnown(lines, l);
  }

  lemma FiledNext(lines: seq<Line>, l: Line)
    ensures Filed(lines + [l])
            == match l.kind
               case 'b' => if OfKind(lines, 'b') == [] then Filed(lines).(base := Some(l), baseSeq := l.number)
                           else Filed(lines)
               case 'h' => Filed(lines).(history := OfKind(lines, 'h') + [l])
               case 'i' => Filed(lines).(incr := OfKind(lines, 'i') + [l], incrSeq := l.number)
               case _ => Filed(lines)
  {
    hide OfKind;
    var b, h, i := OfKind(lines, 'b'), OfKind(lines, 'h'), OfKind(lines, 'i');
    OfKindNext(lines, l, 'b');
    OfKindNext(lines, l, 'h');
    OfKindNext(lines, l, 'i');
    assert b + [] == b && h + [] == h && i + [] == i && [] + [l] == [l];
  }

  lemma FileableNext(lines: seq<Line>, l: Line)
    requires Fileable(lines)
    ensures var i := OfKind(lines, 'i');
            && Rising(i) && (i != [] ==> i[|i| - 1].number > 0)
            && (Fileable(lines + [l]) <==>
                && l.kind in {'b', 'h', 'i'} && (l.kind == 'b' ==> OfKind(lines, 'b') == [])
                && (l.kind == 'i' ==> l.number > 0 && (i == [] || l.number > i[|i| - 1].number)))
  {
    hide OfKind, Rising, Kinds;
    var b, i := OfKind(lines, 'b'), OfKind(lines, 'i');
    OfKindNext(lines, l, 'b');
    OfKindNext(lines, l, 'i');
    RisingNext(i, l);
    KindsNext(lines, l);
    LastPositive(i);
    if l.kind != 'b' {
      assert b + [] == b;
    }
    if l.kind != 'i' {
      assert i + [] == i;
    }
  }

  lemma LastPositive(lines: seq<Line>)
    requires Rising(lines)
    ensures lines != [] ==> lines[|lines| - 1].number > 0
  {
  }

  lemma KindsNext(lines: seq<Line>, l: Line)
    ensures Kinds(lines + [l]) <==> Kinds(lines) && l.kind in {'b', 'h', 'i'}
  {
    assert forall i :: 0 <= i < |lines| ==> (lines + [l])[i] == lines[i];
    assert (lines + [l])[|lines|] == l;
  }

  lemma BaseKnown(lines: seq<Line>)
    ensures OfKind(lines, 'b') == [] <==> !exists x :: x in lines && x.kind == 'b'
  {
    hide OfKind;
    OfKindHas(lines, 'b');
    if OfKind(lines, 'b') != [] {
      assert OfKind(lines, 'b')[0] in OfKind(lines, 'b');
    }
  }

  lemma IncrKnown(lines: seq<Line>, l: Line)
    requires Rising(OfKind(lines, 'i'))
    ensures var i := OfKind(lines, 'i');
            (exists x :: x in lines && x.kind == 'i' && x.number >= l.number)
            <==> i != [] && l.number <= i[|i| - 1].number
  {
    hide OfKind;
    OfKindHas(lines, 'i');
    var i := OfKind(lines, 'i');
    if i != [] {
      assert i[|i| - 1] in i;
    }
    forall x | x in lines && x.kind == 'i' && x.number >= l.number
      ensures i != [] && l.number <= i[|i| - 1].number
    {
      assert x in i;
      var k :| 0 <= k < |i| && i[k] == x;
    }
  }

  lemma RisingNext(lines: seq<Line>, l: Line)
    requires Rising(lines)
    ensures Rising(lines + [l]) <==> l.number > 0 && (lines == [] || l.number > lines[|lines| - 1].number)
  {
    var more := lines + [l];
    if Rising(more) {
      assert more[|lines|] == l && more[|lines|].number > 0;
      assert lines != [] ==> more[|lines| - 1].number < more[|lines|].number;
    }
  }

  // ----- one line -----

  /** A file name is refused exactly if it has a slash or a backslash in it; no other keyword is. */
  lemma FieldRefused(f: Fields, key: string, value: string)
    ensures ReadField(f, key, value) == Err(NotABaseName) <==> Lower(key) == "file" && ('/' in value || '\\' in value)
    ensures ReadField(f, key, value).Err? ==> ReadField(f, key, value) == Err(NotABaseName)
  {
  }

  /** A keyword, in any case. */
  ghost predicate HasKeyword(args: seq<string>, key: string) {
    exists i :: 0 <= 2 * i < |args| && Lower(args[2 * i]) == key
  }

  lemma HasKeywordLater(args: seq<string>, key: string)
    requires |args| >= 2
    ensures HasKeyword(args, key) <==> Lower(args[0]) == key || HasKeyword(args[2..], key)
  {
    hide Lower;
    if HasKeyword(args[2..], key) {
      var i :| 0 <= 2 * i < |args[2..]| && Lower(args[2..][2 * i]) == key;
      assert args[2 * (i + 1)] == args[2..][2 * i];
    }
    if HasKeyword(args, key) && Lower(args[0]) != key {
      var i :| 0 <= 2 * i < |args| && Lower(args[2 * i]) == key;
      assert args[2..][2 * (i - 1)] == args[2 * i];
    }
    if Lower(args[0]) == key {
      assert args[2 * 0] == args[0];
    }
  }

  /** What a line does not say is left as it was. */
  lemma {:induction false} Unsaid(f: Fields, args: seq<string>)
    requires |args| % 2 == 0 && ReadFields(f, args).Ok?
    ensures var r := ReadFields(f, args).value;
            && (!HasKeyword(args, "file") ==> r.name == f.name)
            && (!HasKeyword(args, "seq") ==> r.number == f.number)
            && (!HasKeyword(args, "type") ==> r.kind == f.kind)
            && (!HasKeyword(args, "startoffset") ==> r.start == f.start)
            && (!HasKeyword(args, "endoffset") ==> r.end == f.end)
    decreases |args|
  {
    hide HasKeyword, Lower, Atoi, IsBaseName;
    if args != [] {
      Unsaid(ReadField(f, args[0], args[1]).value, args[2..]);
      HasKeywordLater(args, "file");
      HasKeywordLater(args, "seq");
      HasKeywordLater(args, "type");
      HasKeywordLater(args, "startoffset");
      HasKeywordLater(args, "endoffset");
    }
  }

  /** A line that is read has a file name, a number other than zero and a type; offsets that it does
      not give are unset. */
  lemma LineSays(buf: string)
    requires ParseLine(buf).Ok?
    ensures var args := SplitArgs(Trim(buf));
            && args.Some? && HasKeyword(args.value, "file") && HasKeyword(args.value, "seq")
            && HasKeyword(args.value, "type") && ParseLine(buf).value.number != 0
            && (!HasKeyword(args.value, "startoffset") ==> ParseLine(buf).value.start == -1)
            && (!HasKeyword(args.value, "endoffset") ==> ParseLine(buf).value.end == -1)
  {
    hide HasKeyword, SplitArgs, Trim, ReadFields;
    Unsaid(NO_FIELDS, SplitArgs(Trim(buf)).value);
  }

  /** Blanks, tabs, carriage returns and newlines around a line do not count. */
  lemma {:induction false} TrimExact(before: string, line: string, after: string)
    requires forall i :: 0 <= i < |before| ==> before[i] in {' ', '\t', '\r', '\n'}
    requires forall i :: 0 <= i < |after| ==> after[i] in {' ', '\t', '\r', '\n'}
    requires line != [] && line[0] !in {' ', '\t', '\r', '\n'} && line[|line| - 1] !in {' ', '\t', '\r', '\n'}
    ensures Trim(before + line + after) == line
    decreases |before| + |after|
  {
    if after != [] {
      var n := |after| - 1;
      var all := before + line + after;
      assert all[..|all| - 1] == before + line + after[..n] && all[|all| - 1] == after[n];
      TrimExact(before, line, after[..n]);
    } else {
      assert before + line + after == before + line;
      assert (before + line)[|before + line| - 1] == line[|line| - 1];
      LeftTrimmed(before, line);
    }
  }

  lemma {:induction false} LeftTrimmed(before: string, line: string)
    requires forall i :: 0 <= i < |before| ==> before[i] in {' ', '\t', '\r', '\n'}
    requires line != [] && line[0] !in {' ', '\t', '\r', '\n'}
    ensures TrimLeft(before + line) == line
    decreases |before|
  {
    if before == [] {
      assert before + line == line;
    } else {
      assert (before + line)[1..] == before[1..] + line;
      LeftTrimmed(before[1..], line);
    }
  }

  // ----- whole files -----

  /** The lines of a text, comments aside, or why one of them cannot be read. */
  function Parsed(text: string): Result<seq<Line>>
    decreases |text|
  {
    if text == [] then Ok([])
    else
      var n := LineLength(text, MAX_LINE);
      var rest := Parsed(text[n..]);
      if text[0] == '#' then rest
      else
        var l := ParseLine(text[..n]);
        if l.Err? then Err(l.error) else if rest.Err? then rest else Ok([l.value] + rest.value)
  }

  lemma FileableFront(lines: seq<Line>, more: seq<Line>)
    requires Fileable(lines + more)
    ensures Fileable(lines)
    decreases |more|
  {
    hide OfKind;
    if more == [] {
      assert lines + more == lines;
    } else {
      var n := |more| - 1;
      var l, front := more[n], lines + more[..n];
      assert lines + more == front + [l];
      OfKindNext(front, l, 'b');
      OfKindNext(front, l, 'i');
      RisingFront(OfKind(front, 'i'), if l.kind == 'i' then [l] else []);
      KindsNext(front, l);
      FileableFront(lines, more[..n]);
    }
  }

  lemma RisingFront(a: seq<Line>, b: seq<Line>)
    requires Rising(a + b)
    ensures Rising(a)
  {
    assert forall i :: 0 <= i < |a| ==> a[i] == (a + b)[i];
  }

  lemma {:induction false} LoadFromExact(text: string, lines: seq<Line>, m: Lines)
    requires Fileable(lines)
    ensures LoadFrom(text, Filed(lines)) == Ok(m)
            <==> Parsed(text).Ok? && Fileable(lines + Parsed(text).value) && m == Filed(lines + Parsed(text).value)
    decreases |text|
  {
    hide OfKind, ParseLine, LineLength, AddLine, Fileable, Filed;
    if text == [] {
      assert lines + [] == lines;
    } else {
      var n := LineLength(text, MAX_LINE);
      assert text[..n][0] == text[0];
      if text[0] == '#' {
        LoadFromExact(text[n..], lines, m);
      } else {
        var l := ParseLine(text[..n]);
        if l.Ok? {
          LoadLine(text, n, lines, l.value, m);
        }
      }
    }
  }

  lemma LoadLine(text: string, n: nat, lines: seq<Line>, l: Line, m: Lines)
    requires Fileable(lines) && text != [] && text[0] != '#' && n == LineLength(text, MAX_LINE)
    requires ParseLine(text[..n]) == Ok(l)
    ensures LoadFrom(text, Filed(lines)) == Ok(m)
            <==> Parsed(text).Ok? && Fileable(lines + Parsed(text).value) && m == Filed(lines + Parsed(text).value)
    decreases |text|, 0
  {
    hide OfKind, ParseLine, LineLength, AddLine, Fileable, Filed;
    assert text[..n][0] == text[0];
    AddLineExact(lines, l);
    var rest := Parsed(text[n..]);
    if AddLine(Filed(lines), l).Ok? {
      LoadFromExact(text[n..], lines + [l], m);
      if rest.Ok? {
        assert lines + ([l] + rest.value) == lines + [l] + rest.value;
      }
    } else if rest.Ok? && Fileable(lines + ([l] + rest.value)) {
      assert lines + ([l] + rest.value) == (lines + [l]) + rest.value;
      FileableFront(lines + [l], rest.value);
    }
  }

  /** A manifest is accepted exactly if every line can be read, there is at most one BASE, the INCR
      numbers rise and there are no other types; then its lines are in their lists, in order. */
  lemma LoadExact(text: string, m: Lines)
    ensures Load(text) == Ok(m)
            <==> text != [] && Parsed(text).Ok? && Fileable(Parsed(text).value) && m == Filed(Parsed(text).value)
  {
    hide LoadFrom, Parsed;
    LoadFromExact(text, [], m);
    if Parsed(text).Ok? {
      assert [] + Parsed(text).value == Parsed(text).value;
    }
  }
}
