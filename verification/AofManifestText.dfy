/** aof.c: the manifest as a text file, written by getAofManifestAsString and read back by
    aofLoadManifestFromFile.
  */
module AofManifestText {
  import opened Options
  import opened Letters
  import opened Sds
  import opened Decimal
  import opened Stdio

  /** One line of the manifest: an aofInfo.  An offset of -1 is unset. */
  datatype Line = Line(name: string, number: int, kind: char, start: int, end: int)

  datatype Error = EmptyFile | TooLong | BadFormat | NotABaseName | DuplicateBase | NotMonotonic | UnknownType

  datatype Result<T> = Ok(value: T) | Err(error: Error)

  // ----- writing -----

  function NameText(name: string): string {
    if NeedsRepr(name) then Repr(name) else name
  }

  function OffsetsText(l: Line): string {
    if l.start == -1 then []
    else " startoffset " + Dec(l.start) + (if l.end == -1 then [] else " endoffset " + Dec(l.end))
  }

  /** The text of a line without its newline. */
  function LineBody(l: Line): string {
    "file " + NameText(l.name) + " seq " + Dec(l.number) + " type " + [l.kind] + OffsetsText(l)
  }

  /** aofInfoFormat */
  function FormatLine(l: Line): string {
    LineBody(l) + ['\n']
  }

  // ----- reading one line -----

  predicate IsTrim(c: char) {
    c == ' ' || c == '\t' || c == '\r' || c == '\n'
  }

  function TrimLeft(s: string): string {
    if s != [] && IsTrim(s[0]) then TrimLeft(s[1..]) else s
  }

  function TrimRight(s: string): string {
    if s != [] && IsTrim(s[|s| - 1]) then TrimRight(s[..|s| - 1]) else s
  }

  function Trim(s: string): string {
    TrimLeft(TrimRight(s))
  }

  predicate IsBaseName(name: string) {
    '/' !in name && '\\' !in name
  }

  /** What a line has said so far. */
  datatype Fields = Fields(name: Option<string>, number: int, kind: Option<char>, start: int, end: int)

  const NO_FIELDS := Fields(None, 0, None, -1, -1)

  /** One keyword and its value; unknown keywords are skipped. */
  function ReadField(f: Fields, key: string, value: string): Result<Fields> {
    var k := Lower(key);
    if k == "file" then if IsBaseName(value) then Ok(f.(name := Some(value))) else Err(NotABaseName)
    else if k == "seq" then Ok(f.(number := Atoi(value)))
    else if k == "type" then Ok(f.(kind := if value == [] then None else Some(value[0])))
    else if k == "startoffset" then Ok(f.(start := Atoi(value)))
    else if k == "endoffset" then Ok(f.(end := Atoi(value)))
    else Ok(f)
  }

  function ReadFields(f: Fields, args: seq<string>): Result<Fields>
    requires |args| % 2 == 0
    decreases |args|
  {
    if args == [] then Ok(f)
    else
      var r := ReadField(f, args[0], args[1]);
      if r.Err? then r else ReadFields(r.value, args[2..])
  }

  /** The checks and the parsing of one line, newline included. */
  function ParseLine(buf: string): Result<Line> {
    if '\n' !in buf then Err(TooLong)
    else
      var line := Trim(buf);
      if line == [] then Err(BadFormat)
      else
        var args := SplitArgs(line);
        if args.None? || |args.value| < 6 || |args.value| % 2 != 0 then Err(BadFormat)
        else
          var r := ReadFields(NO_FIELDS, args.value);
          if r.Err? then Err(r.error)
          else if r.value.name.None? || r.value.number == 0 || r.value.kind.None? then Err(BadFormat)
          else Ok(Line(r.value.name.value, r.value.number, r.value.kind.value, r.value.start, r.value.end))
  }

  // ----- one line round trip -----

  /** The end offset is written only after a start offset. */
  function Kept(l: Line): Line {
    if l.start == -1 then l.(end := -1) else l
  }

  /** What the server guarantees of a line: its own file names, a positive sequence number and
      one of the three types. */
  predicate ServerLine(l: Line) {
    && IsBytes(l.name) && l.name != [] && IsBaseName(l.name)
    && l.number > 0 && (l.kind == 'b' || l.kind == 'h' || l.kind == 'i')
  }

  /** A single quote makes the reader open a quotation, but does not make the writer quote. */
  predicate Readable(name: string) {
    NeedsRepr(name) || '\'' !in name
  }

  function OffsetArgs(l: Line): seq<string> {
    if l.start == -1 then []
    else ["startoffset", Dec(l.start)] + (if l.end == -1 then [] else ["endoffset", Dec(l.end)])
  }

  /** The arguments after the file name. */
  function TailArgs(l: Line): seq<string> {
    ["seq", Dec(l.number), "type", [l.kind]] + OffsetArgs(l)
  }

  lemma JoinOne(a: string)
    ensures Join([a]) == a
  {
  }

  lemma JoinMore(a: string, rest: seq<string>)
    requires rest != []
    ensures Join([a] + rest) == a + [' '] + Join(rest)
  {
    assert ([a] + rest)[1..] == rest;
  }

  lemma OffsetsJoin(l: Line)
    ensures Join([[l.kind]] + OffsetArgs(l)) == [l.kind] + OffsetsText(l)
  {
    hide Dec, Join;
    var k: string := [l.kind];
    if l.start == -1 {
      JoinOne(k);
      assert [k] + [] == [k] && k + [] == k;
    } else {
      BothOffsetsJoin(l);
    }
  }

  lemma EndJoin(s: string, e: string)
    ensures Join([s] + ["endoffset", e]) == s + " endoffset " + e
  {
    hide Join;
    JoinMore(s, ["endoffset"] + [e]);
    JoinMore("endoffset", [e]);
    JoinOne(e);
    assert [s] + ["endoffset", e] == [s] + (["endoffset"] + [e]);
    assert s + [' '] + ("endoffset" + [' '] + e) == s + " endoffset " + e;
  }

  lemma BothOffsetsJoin(l: Line)
    requires l.start != -1
    ensures Join([[l.kind]] + OffsetArgs(l)) == [l.kind] + OffsetsText(l)
  {
    hide Dec, Join;
    var k: string := [l.kind];
    var s, e := Dec(l.start), Dec(l.end);
    var tail := if l.end == -1 then [] else ["endoffset", e];
    JoinMore(k, ["startoffset"] + ([s] + tail));
    JoinMore("startoffset", [s] + tail);
    assert [k] + OffsetArgs(l) == [k] + (["startoffset"] + ([s] + tail));
    if l.end == -1 {
      JoinOne(s);
      assert [s] + [] == [s];
    } else {
      EndJoin(s, e);
    }
    var rest := if l.end == -1 then s else s + " endoffset " + e;
    assert Join([s] + tail) == rest;
    assert k + [' '] + ("startoffset" + [' '] + rest) == k + (" startoffset " + rest);
    assert OffsetsText(l) == " startoffset " + rest;
  }

  /** The text of a line, bracketed to the left and to the right. */
  lemma Regroup(name: string, n: string, k: string, rest: string)
    ensures "file " + name + " seq " + n + " type " + k + rest
            == "file" + [' '] + (name + [' '] + ("seq" + [' '] + (n + [' '] + ("type" + [' '] + (k + rest)))))
  {
    var tail := " type " + k + rest;
    assert " " + ("type" + [' '] + (k + rest)) == tail;
    RegroupFront(name, n, tail);
    assert "file " + name + " seq " + n + tail == "file " + name + " seq " + n + " type " + k + rest;
    assert n + [' '] + ("type" + [' '] + (k + rest)) == n + tail;
  }

  lemma RegroupFront(name: string, n: string, tail: string)
    ensures "file " + name + " seq " + n + tail == "file" + [' '] + (name + [' '] + ("seq" + [' '] + (n + tail)))
  {
    var more := " seq " + (n + tail);
    assert [' '] + ("seq" + [' '] + (n + tail)) == more;
    assert "file " + name + " seq " + n + tail == "file " + (name + more);
    assert name + [' '] + ("seq" + [' '] + (n + tail)) == name + more;
    assert "file" + [' '] + (name + more) == "file " + (name + more);
  }

  lemma LineBodyIsJoin(l: Line)
    requires IsBytes(l.name)
    ensures LineBody(l) == "file" + [' '] + (NameText(l.name) + [' '] + Join(TailArgs(l)))
  {
    hide Dec, NameText, Join, OffsetsText;
    var n, k: string := Dec(l.number), [l.kind];
    var rest := [k] + OffsetArgs(l);
    OffsetsJoin(l);
    JoinMore("type", rest);
    JoinMore(n, ["type"] + rest);
    JoinMore("seq", [n] + (["type"] + rest));
    assert TailArgs(l) == ["seq"] + ([n] + (["type"] + rest));
    Regroup(NameText(l.name), n, k, OffsetsText(l));
  }

  lemma DecWord(n: int)
    ensures IsWord(Dec(n))
  {
  }

  lemma TailWords(l: Line)
    requires ServerLine(l)
    ensures forall i :: 0 <= i < |TailArgs(l)| ==> IsWord(TailArgs(l)[i])
  {
    hide Dec;
    DecWord(l.number);
    DecWord(l.start);
    DecWord(l.end);
  }

  lemma FileWord()
    ensures IsWord("file")
  {
  }

  lemma NameWord(name: string)
    requires name != [] && !NeedsRepr(name) && '\'' !in name
    ensures IsWord(name)
  {
  }

  /** What splitting a line gives. */
  lemma LineSplits(l: Line)
    requires ServerLine(l)
    ensures Readable(l.name) ==> SplitArgs(LineBody(l)) == Some(["file", l.name] + TailArgs(l))
  {
    hide Dec, Join, SplitArgs, Repr, IsWord, NeedsRepr, LineBody, TailArgs;
    LineBodyIsJoin(l);
    var tail := Join(TailArgs(l));
    TailWords(l);
    FileWord();
    SplitJoin(TailArgs(l));
    SplitPlain("file", NameText(l.name) + [' '] + tail);
    if NeedsRepr(l.name) {
      SplitQuoted(l.name, tail);
    } else if '\'' !in l.name {
      NameWord(l.name);
      SplitPlain(l.name, tail);
    }
    assert ["file"] + ([l.name] + TailArgs(l)) == ["file", l.name] + TailArgs(l);
  }

  // Reading the arguments back.

  lemma FieldReads(f: Fields, n: int, value: string)
    ensures IsBaseName(value) ==> ReadField(f, "file", value) == Ok(f.(name := Some(value)))
    ensures ReadField(f, "seq", Dec(n)) == Ok(f.(number := n))
    ensures value != [] ==> ReadField(f, "type", value) == Ok(f.(kind := Some(value[0])))
    ensures ReadField(f, "startoffset", Dec(n)) == Ok(f.(start := n))
    ensures ReadField(f, "endoffset", Dec(n)) == Ok(f.(end := n))
  {
    hide Atoi, Dec, Lower, IsBaseName;
    AtoiOfDec(n, []);
    assert Dec(n) + [] == Dec(n);
    LowerKeys();
  }

  lemma LowerKeys()
    ensures Lower("file") == "file" && Lower("seq") == "seq" && Lower("type") == "type"
    ensures Lower("startoffset") == "startoffset" && Lower("endoffset") == "endoffset"
  {
    assert Lower("file") == "file" && Lower("seq") == "seq" && Lower("type") == "type";
    assert Lower("startoffset") == "startoffset" && Lower("endoffset") == "endoffset";
  }

  lemma ReadOne(f: Fields, key: string, value: string, rest: seq<string>)
    requires |rest| % 2 == 0 && ReadField(f, key, value).Ok?
    ensures ReadFields(f, [key, value] + rest) == ReadFields(ReadField(f, key, value).value, rest)
  {
    assert ([key, value] + rest)[2..] == rest;
  }

  lemma ReadNone(f: Fields)
    ensures ReadFields(f, []) == Ok(f)
  {
  }

  lemma OffsetsRead(l: Line, f: Fields)
    requires f.start == -1 && f.end == -1
    ensures ReadFields(f, OffsetArgs(l)) == Ok(f.(start := l.start, end := Kept(l).end))
  {
    hide ReadFields, ReadField, Dec;
    if l.start == -1 {
      ReadNone(f);
    } else {
      var g := f.(start := l.start);
      FieldReads(f, l.start, []);
      FieldReads(g, l.end, []);
      var tail := if l.end == -1 then [] else ["endoffset", Dec(l.end)];
      ReadOne(f, "startoffset", Dec(l.start), tail);
      if l.end == -1 {
        ReadNone(g);
      } else {
        ReadOne(g, "endoffset", Dec(l.end), []);
        assert tail == ["endoffset", Dec(l.end)] + [];
        ReadNone(g.(end := l.end));
      }
    }
  }

  lemma LineReads(l: Line)
    requires ServerLine(l)
    ensures ReadFields(NO_FIELDS, ["file", l.name] + TailArgs(l))
            == Ok(Fields(Some(l.name), l.number, Some(l.kind), l.start, Kept(l).end))
  {
    hide ReadFields, ReadField, Dec, OffsetArgs;
    var k: string := [l.kind];
    var f1 := NO_FIELDS.(name := Some(l.name));
    var f2 := f1.(number := l.number);
    var f3 := f2.(kind := Some(l.kind));
    FieldReads(NO_FIELDS, 0, l.name);
    FieldReads(f1, l.number, []);
    FieldReads(f2, 0, k);
    OffsetsEven(l);
    var t3 := OffsetArgs(l);
    var t2 := ["type", k] + t3;
    var t1 := ["seq", Dec(l.number)] + t2;
    assert TailArgs(l) == t1;
    ReadOne(NO_FIELDS, "file", l.name, t1);
    ReadOne(f1, "seq", Dec(l.number), t2);
    ReadOne(f2, "type", k, t3);
    OffsetsRead(l, f3);
  }

  lemma OffsetsEven(l: Line)
    ensures |OffsetArgs(l)| % 2 == 0
  {
  }

  // Trimming removes exactly the newline.

  lemma TrimNewline(s: string)
    requires s != [] && !IsTrim(s[0]) && !IsTrim(s[|s| - 1])
    ensures Trim(s + ['\n']) == s
  {
    var t := s + ['\n'];
    assert t[..|t| - 1] == s;
    assert TrimRight(t) == TrimRight(s) == s;
  }

  lemma LineEnds(l: Line)
    requires ServerLine(l)
    ensures LineBody(l) != [] && !IsTrim(LineBody(l)[0]) && !IsTrim(LineBody(l)[|LineBody(l)| - 1])
  {
    hide NameText, IsBaseName;
    var n := if l.end == -1 then Dec(l.start) else Dec(l.end);
    assert n[|n| - 1] == '-' || IsDigit(n[|n| - 1]);
    assert LineBody(l)[|LineBody(l)| - 1] == if l.start == -1 then l.kind else n[|n| - 1];
    assert LineBody(l)[0] == 'f';
  }

  /** A line written by the server is read back, and only if its name has no bare quote. */
  lemma LineRoundTrip(l: Line)
    requires ServerLine(l)
    ensures ParseLine(FormatLine(l)) == Ok(Kept(l)) <==> Readable(l.name)
  {
    hide LineBody, SplitArgs, ReadFields, Dec, Trim, OffsetArgs;
    LineEnds(l);
    TrimNewline(LineBody(l));
    var buf := FormatLine(l);
    assert buf[|buf| - 1] == '\n';
    if Readable(l.name) {
      LineSplits(l);
      LineReads(l);
      OffsetsEven(l);
    } else {
      BareQuote(l);
    }
  }

  /** A name such as `it's` is written by the server and not read back by the next start. */
  lemma BareQuoteExample(l: Line)
    requires l == Line("it's", 1, 'b', -1, -1)
    ensures ServerLine(l) && ParseLine(FormatLine(l)) != Ok(Kept(l))
  {
    hide ParseLine, FormatLine;
    assert l.name == ['i', 't', '\'', 's'] && l.name[2] == '\'';
    LineRoundTrip(l);
  }

  lemma {:induction false} NameIsArgument(f: Fields, args: seq<string>)
    requires |args| % 2 == 0
    ensures ReadFields(f, args).Ok? ==>
              ReadFields(f, args).value.name == f.name
              || exists i :: 0 <= i < |args| && ReadFields(f, args).value.name == Some(args[i])
    decreases |args|
  {
    hide Lower, Atoi, IsBaseName;
    if args != [] {
      var r := ReadField(f, args[0], args[1]);
      if r.Ok? {
        NameIsArgument(r.value, args[2..]);
      }
    }
  }

  lemma NoEscapesConcat(a: string, b: string)
    requires NoEscapes(a) && NoEscapes(b)
    ensures NoEscapes(a + b)
  {
  }

  lemma DecNoEscapes(n: int)
    ensures NoEscapes(Dec(n))
  {
  }

  lemma BodyNoEscapes(l: Line)
    requires ServerLine(l) && !NeedsRepr(l.name)
    ensures NoEscapes(LineBody(l))
  {
    assert NoEscapes("file ") && NoEscapes(l.name) && NoEscapes(" seq ") && NoEscapes(" type ") && NoEscapes([l.kind]);
    assert NoEscapes(" startoffset ") && NoEscapes(" endoffset ") && NoEscapes([]);
    DecNoEscapes(l.number);
    DecNoEscapes(l.start);
    DecNoEscapes(l.end);
    hide NoEscapes, Dec, ServerLine;
    var e := if l.end == -1 then [] else " endoffset " + Dec(l.end);
    NoEscapesConcat(" endoffset ", Dec(l.end));
    NoEscapesConcat(" startoffset ", Dec(l.start));
    NoEscapesConcat(" startoffset " + Dec(l.start), e);
    NoEscapesConcat("file ", l.name);
    NoEscapesConcat("file " + l.name, " seq ");
    NoEscapesConcat("file " + l.name + " seq ", Dec(l.number));
    NoEscapesConcat("file " + l.name + " seq " + Dec(l.number), " type ");
    NoEscapesConcat("file " + l.name + " seq " + Dec(l.number) + " type ", [l.kind]);
    NoEscapesConcat("file " + l.name + " seq " + Dec(l.number) + " type " + [l.kind], OffsetsText(l));
  }

  lemma BareQuote(l: Line)
    requires ServerLine(l) && !Readable(l.name)
    requires Trim(FormatLine(l)) == LineBody(l)
    ensures ParseLine(FormatLine(l)) != Ok(Kept(l))
  {
    hide LineBody, SplitArgs, ReadFields, Dec, Trim, OffsetArgs;
    BodyNoEscapes(l);
    SplitDropsQuote(LineBody(l));
    var args := SplitArgs(LineBody(l));
    if args.Some? && |args.value| % 2 == 0 {
      NameIsArgument(NO_FIELDS, args.value);
    }
  }

  // ----- the whole file -----

  /** An aofManifest: the BASE line, the HISTORY and INCR lines in order, and the sequence
      numbers in use. */
  datatype Lines = Lines(base: Option<Line>, history: seq<Line>, incr: seq<Line>, baseSeq: int, incrSeq: int)

  const NO_LINES := Lines(None, [], [], 0, 0)

  function FormatAll(lines: seq<Line>): string {
    if lines == [] then [] else FormatLine(lines[0]) + FormatAll(lines[1..])
  }

  /** BASE first, then HISTORY, then INCR. */
  function AllLines(m: Lines): seq<Line> {
    BaseLines(m) + (m.history + m.incr)
  }

  function BaseLines(m: Lines): seq<Line> {
    if m.base.Some? then [m.base.value] else []
  }

  const MAX_LINE := 1024  // MANIFEST_MAX_LINE

  /** Filing one parsed line. */
  function AddLine(m: Lines, l: Line): Result<Lines> {
    match l.kind
    case 'b' => if m.base.Some? then Err(DuplicateBase) else Ok(m.(base := Some(l), baseSeq := l.number))
    case 'h' => Ok(m.(history := m.history + [l]))
    case 'i' => if l.number <= m.incrSeq then Err(NotMonotonic) else Ok(m.(incr := m.incr + [l], incrSeq := l.number))
    case _ => Err(UnknownType)
  }

  /** The lines of `text`, filed one after the other into `m`. */
  function LoadFrom(text: string, m: Lines): Result<Lines>
    decreases |text|
  {
    if text == [] then Ok(m)
    else
      var n := LineLength(text, MAX_LINE);
      var buf := text[..n];
      if buf[0] == '#' then LoadFrom(text[n..], m)
      else
        var l := ParseLine(buf);
        if l.Err? then Err(l.error)
        else
          var r := AddLine(m, l.value);
          if r.Err? then r else LoadFrom(text[n..], r.value)
  }

  function Load(text: string): Result<Lines> {
    if text == [] then Err(EmptyFile) else LoadFrom(text, NO_LINES)
  }

  /** aofLoadManifestFromFile; the highest INCR number seen is the current one. */
  method LoadManifest(text: string) returns (r: Result<Lines>)
    ensures r == Load(text)
  {
    hide ParseLine, AddLine, LineLength;
    var m, at, lineNumber := NO_LINES, 0, 0;
    assert text[0..] == text;
    while true
      invariant 0 <= at <= |text|
      invariant lineNumber == 0 ==> at == 0
      invariant lineNumber > 0 ==> text != []
      invariant text != [] ==> Load(text) == LoadFrom(text[at..], m)
      decreases |text| - at
    {
      if at == |text| {
        if lineNumber == 0 {
          return Err(EmptyFile);
        }
        return Ok(m);
      }
      var n := LineLength(text[at..], MAX_LINE);
      var buf := text[at..][..n];
      lineNumber := lineNumber + 1;
      assert text[at..][n..] == text[at + n..];
      at := at + n;
      if buf[0] == '#' {
        continue;
      }
      var l := ParseLine(buf);
      if l.Err? {
        return Err(l.error);
      }
      var added := AddLine(m, l.value);
      if added.Err? {
        return added;
      }
      m := added.value;
    }
  }

  // ----- what the server writes, it reads back -----

  /** The manifests the server holds: at most one BASE, HISTORY and INCR lines in their lists,
      INCR numbers strictly increasing, and at least one line. */
  ghost predicate ServerLines(m: Lines) {
    && (m.base.Some? ==> m.base.value.kind == 'b')
    && (forall i :: 0 <= i < |m.history| ==> m.history[i].kind == 'h')
    && (forall i :: 0 <= i < |m.incr| ==> m.incr[i].kind == 'i')
    && (forall i, j :: 0 <= i < j < |m.incr| ==> m.incr[i].number < m.incr[j].number)
    && (forall i :: 0 <= i < |AllLines(m)| ==> ServerLine(AllLines(m)[i]))
    && AllLines(m) != []
  }

  function KeptAll(lines: seq<Line>): (r: seq<Line>)
    ensures |r| == |lines| && forall i :: 0 <= i < |lines| ==> r[i] == Kept(lines[i])
  {
    if lines == [] then [] else [Kept(lines[0])] + KeptAll(lines[1..])
  }

  /** The manifest after a restart: end offsets without a start offset are gone, and the
      sequence numbers come from the BASE and INCR lines. */
  function Reread(m: Lines): Lines {
    Lines(if m.base.Some? then Some(Kept(m.base.value)) else None, KeptAll(m.history), KeptAll(m.incr),
          if m.base.Some? then m.base.value.number else 0,
          LastNumber(m.incr, 0))
  }

  /** Filing a list of lines. */
  function FileAll(m: Lines, lines: seq<Line>): Result<Lines>
    decreases |lines|
  {
    if lines == [] then Ok(m)
    else
      var r := AddLine(m, Kept(lines[0]));
      if r.Err? then r else FileAll(r.value, lines[1..])
  }

  lemma {:induction false} FileConcat(m: Lines, a: seq<Line>, b: seq<Line>)
    requires FileAll(m, a).Ok?
    ensures FileAll(m, a + b) == FileAll(FileAll(m, a).value, b)
    decreases |a|
  {
    if a == [] {
      assert a + b == b;
    } else {
      assert (a + b)[1..] == a[1..] + b;
      FileConcat(AddLine(m, Kept(a[0])).value, a[1..], b);
    }
  }

  lemma KeptAllStep(lines: seq<Line>, before: seq<Line>)
    ensures lines == [] ==> before + KeptAll(lines) == before
    ensures lines != [] ==> before + KeptAll(lines) == (before + [Kept(lines[0])]) + KeptAll(lines[1..])
  {
  }

  lemma {:induction false} FileHistory(m: Lines, lines: seq<Line>)
    requires forall i :: 0 <= i < |lines| ==> lines[i].kind == 'h'
    ensures FileAll(m, lines) == Ok(m.(history := m.history + KeptAll(lines)))
    decreases |lines|
  {
    hide KeptAll;
    KeptAllStep(lines, m.history);
    if lines != [] {
      FileHistory(m.(history := m.history + [Kept(lines[0])]), lines[1..]);
    }
  }

  function LastNumber(lines: seq<Line>, before: int): int {
    if lines == [] then before else lines[|lines| - 1].number
  }

  lemma {:induction false} FileIncr(m: Lines, lines: seq<Line>)
    requires forall i :: 0 <= i < |lines| ==> lines[i].kind == 'i' && lines[i].number > m.incrSeq
    requires forall i, j :: 0 <= i < j < |lines| ==> lines[i].number < lines[j].number
    ensures FileAll(m, lines) == Ok(m.(incr := m.incr + KeptAll(lines), incrSeq := LastNumber(lines, m.incrSeq)))
    decreases |lines|
  {
    hide KeptAll;
    KeptAllStep(lines, m.incr);
    if lines != [] {
      var n := m.(incr := m.incr + [Kept(lines[0])], incrSeq := lines[0].number);
      assert AddLine(m, Kept(lines[0])) == Ok(n);
      FileIncr(n, lines[1..]);
    }
  }

  lemma FileBase(m: Lines)
    requires m.base.Some? ==> m.base.value.kind == 'b'
    ensures FileAll(NO_LINES, BaseLines(m)) == Ok(Reread(m.(history := [], incr := [])))
  {
    if m.base.Some? {
      assert BaseLines(m)[1..] == [];
    }
  }

  lemma IncrPositive(m: Lines)
    requires ServerLines(m)
    ensures forall i :: 0 <= i < |m.incr| ==> m.incr[i].number > 0
  {
    forall i | 0 <= i < |m.incr|
      ensures m.incr[i].number > 0
    {
      assert AllLines(m)[|BaseLines(m)| + |m.history| + i] == m.incr[i];
    }
  }

  lemma FileServerLines(m: Lines)
    requires ServerLines(m)
    ensures FileAll(NO_LINES, AllLines(m)) == Ok(Reread(m))
  {
    hide KeptAll, ServerLine, FileAll;
    IncrPositive(m);
    FileBase(m);
    FileConcat(NO_LINES, BaseLines(m), m.history + m.incr);
    var m1 := Reread(m.(history := [], incr := []));
    FileHistory(m1, m.history);
    FileConcat(m1, m.history, m.incr);
    assert m1.history == [] && m1.incr == [];
    assert [] + KeptAll(m.history) == KeptAll(m.history) && [] + KeptAll(m.incr) == KeptAll(m.incr);
    var m2 := m1.(history := m1.history + KeptAll(m.history));
    FileIncr(m2, m.incr);
  }

  // Reading the text line by line.

  lemma {:induction false} EscapesPrintable(s: string)
    requires IsBytes(s)
    ensures '\n' !in EscapeAll(s)
  {
    if s != [] {
      EscapesPrintable(s[1..]);
      assert '\n' !in Escape(s[0]);
    }
  }

  lemma NameOneLine(name: string)
    requires IsBytes(name)
    ensures '\n' !in NameText(name)
  {
    hide EscapeAll;
    if NeedsRepr(name) {
      EscapesPrintable(name);
    }
  }

  lemma DecOneLine(n: int)
    ensures '\n' !in Dec(n)
  {
  }

  lemma NoNewline(l: Line)
    requires ServerLine(l)
    ensures '\n' !in LineBody(l)
  {
    hide NameText, Dec, IsBaseName;
    NameOneLine(l.name);
    DecOneLine(l.number);
    DecOneLine(l.start);
    DecOneLine(l.end);
    assert '\n' !in OffsetsText(l);
    hide OffsetsText;
  }

  /** A line that fits is parsed; a longer one is cut and refused. */
  lemma LineLoads(l: Line, rest: string, m: Lines)
    requires ServerLine(l)
    ensures |FormatLine(l)| > 1024 ==> LoadFrom(FormatLine(l) + rest, m) == Err(TooLong)
    ensures |FormatLine(l)| <= 1024 ==>
              LoadFrom(FormatLine(l) + rest, m)
              == var p := ParseLine(FormatLine(l));
                 if p.Err? then Err(p.error)
                 else var r := AddLine(m, p.value); if r.Err? then r else LoadFrom(rest, r.value)
  {
    hide LineBody, LineLength, AddLine, ParseLine, ServerLine;
    var text := FormatLine(l) + rest;
    LineStarts(l);
    NoNewline(l);
    LineLengthIs(LineBody(l), rest, MAX_LINE);
    assert text[0] == LineBody(l)[0];
    if |FormatLine(l)| > MAX_LINE {
      assert text[..MAX_LINE] == LineBody(l)[..MAX_LINE];
      CutLine(text[..MAX_LINE]);
    } else {
      var n := |FormatLine(l)|;
      assert text[..n] == FormatLine(l) && text[n..] == rest;
    }
  }

  lemma LineStarts(l: Line)
    ensures LineBody(l) != [] && LineBody(l)[0] == 'f'
  {
  }

  lemma CutLine(buf: string)
    requires '\n' !in buf
    ensures ParseLine(buf) == Err(TooLong)
  {
  }

  /** Text whose lines are all readable and short enough is filed line by line. */
  lemma {:induction false} LoadFiles(lines: seq<Line>, m: Lines)
    requires forall i :: 0 <= i < |lines| ==> ServerLine(lines[i])
    requires forall i :: 0 <= i < |lines| ==> Readable(lines[i].name) && |FormatLine(lines[i])| <= MAX_LINE
    ensures LoadFrom(FormatAll(lines), m) == FileAll(m, lines)
    decreases |lines|
  {
    hide ParseLine, AddLine, FormatLine, Readable;
    if lines == [] {
      LoadNothing(m);
    } else {
      hide LoadFrom;
      LineLoads(lines[0], FormatAll(lines[1..]), m);
      LineRoundTrip(lines[0]);
      var r := AddLine(m, Kept(lines[0]));
      if r.Ok? {
        LoadFiles(lines[1..], r.value);
      }
    }
  }

  lemma LoadNothing(m: Lines)
    ensures LoadFrom([], m) == Ok(m)
  {
  }

  // The other direction: a line that is too long is refused, and no bare quote is read back.

  lemma ParsedNameReadable(l: Line)
    requires ServerLine(l)
    ensures ParseLine(FormatLine(l)).Ok? ==> Readable(ParseLine(FormatLine(l)).value.name)
  {
    if Readable(l.name) {
      LineRoundTrip(l);
    } else {
      hide LineBody, SplitArgs, ReadFields, Trim;
      LineEnds(l);
      TrimNewline(LineBody(l));
      BodyNoEscapes(l);
      SplitDropsQuote(LineBody(l));
      var args := SplitArgs(LineBody(l));
      if args.Some? && |args.value| % 2 == 0 {
        NameIsArgument(NO_FIELDS, args.value);
      }
    }
  }

  ghost predicate NamesReadable(m: Lines) {
    && (m.base.Some? ==> Readable(m.base.value.name))
    && (forall i :: 0 <= i < |m.history| ==> Readable(m.history[i].name))
    && (forall i :: 0 <= i < |m.incr| ==> Readable(m.incr[i].name))
  }

  lemma {:induction false} LoadedReadable(lines: seq<Line>, m: Lines)
    requires forall i :: 0 <= i < |lines| ==> ServerLine(lines[i])
    requires NamesReadable(m)
    ensures LoadFrom(FormatAll(lines), m).Ok? ==>
              NamesReadable(LoadFrom(FormatAll(lines), m).value)
              && forall i :: 0 <= i < |lines| ==> |FormatLine(lines[i])| <= MAX_LINE
    decreases |lines|
  {
    hide ParseLine, FormatLine, Readable;
    if lines == [] {
      LoadNothing(m);
    } else {
      hide LoadFrom;
      LineLoads(lines[0], FormatAll(lines[1..]), m);
      ParsedNameReadable(lines[0]);
      var p := ParseLine(FormatLine(lines[0]));
      if p.Ok? && AddLine(m, p.value).Ok? {
        LoadedReadable(lines[1..], AddLine(m, p.value).value);
      }
    }
  }

  /** Every manifest the server writes is read back exactly, provided that no name holds a bare
      single quote and no line is longer than the reader's buffer; otherwise it never is. */
  lemma ManifestRoundTrip(m: Lines)
    requires ServerLines(m)
    ensures Load(FormatAll(AllLines(m))) == Ok(Reread(m))
            <==> (forall i :: 0 <= i < |AllLines(m)| ==>
                    Readable(AllLines(m)[i].name) && |FormatLine(AllLines(m)[i])| <= 1024)
  {
    var lines := AllLines(m);
    hide LoadFrom, FileAll, KeptAll, Readable, ServerLine;
    assert FormatAll(lines) != [];
    if forall i :: 0 <= i < |lines| ==> Readable(lines[i].name) && |FormatLine(lines[i])| <= MAX_LINE {
      LoadFiles(lines, NO_LINES);
      FileServerLines(m);
    } else {
      LoadedReadable(lines, NO_LINES);
      if Load(FormatAll(lines)) == Ok(Reread(m)) {
        RereadNames(m);
      }
    }
  }

  lemma RereadNames(m: Lines)
    requires NamesReadable(Reread(m))
    ensures forall i :: 0 <= i < |AllLines(m)| ==> Readable(AllLines(m)[i].name)
  {
    hide Readable, KeptAll;
    var b := |BaseLines(m)|;
    forall i | 0 <= i < |AllLines(m)|
      ensures Readable(AllLines(m)[i].name)
    {
      if i < b {
        assert AllLines(m)[i] == m.base.value;
      } else if i < b + |m.history| {
        assert AllLines(m)[i] == m.history[i - b];
        assert KeptAll(m.history)[i - b].name == m.history[i - b].name;
      } else {
        var k := i - b - |m.history|;
        assert AllLines(m)[i] == m.incr[k];
        assert KeptAll(m.incr)[k].name == m.incr[k].name;
      }
    }
  }
}
