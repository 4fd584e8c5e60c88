/** aof.c: writing behind a command that was cut, without truncating the file first. */
module AofTornAppend {
  import opened Options
  import opened Letters
  import opened Decimal
  import opened Stdio
  import opened AofCodec
  import opened AofCodecProofs
  import opened AofLog

  /** An annotated write in database 0: a call that is lost behind every command that was cut. */
  const TIME := 1_000_000_000
  const LOST_CALL := Call(Some(TIME), Perform(Write(0, ["x"])))

  /** Its bytes: the annotation, SELECT 0 and the command, line by line. */
  const MARK := "#TS:1000000000\r\n"
  const NAME := "$6\r\nSELECT\r\n"
  const ZERO := "$1\r\n0\r\n"
  const LETTER := "$1\r\nx\r\n"
  const FROM43 := LETTER
  const FROM39 := "*1\r\n" + FROM43
  const FROM32 := ZERO + FROM39
  const FROM20 := NAME + FROM32
  const FROM16 := "*2\r\n" + FROM20
  const TAIL := MARK + FROM16

  lemma Lengths()
    ensures |MARK| == 16 && |NAME| == 12 && |ZERO| == 7 && |LETTER| == 7
    ensures |FROM43| == 7 && |FROM39| == 11 && |FROM32| == 18 && |FROM20| == 30 && |FROM16| == 34 && |TAIL| == 50
  {
  }

  lemma Suffix(a: string, b: string)
    ensures (a + b)[|a|..] == b
  {
  }

  lemma Deeper(text: string, a: nat, b: nat)
    requires a <= b <= |text|
    ensures text[a..][b - a..] == text[b..]
  {
  }

  lemma Suffixes()
    ensures |TAIL| == 50 && TAIL[16..] == FROM16 && TAIL[20..] == FROM20 && TAIL[32..] == FROM32
    ensures TAIL[39..] == FROM39 && TAIL[43..] == FROM43 && TAIL[50..] == []
  {
    Lengths();
    Suffix(MARK, FROM16);
    Suffix("*2\r\n", FROM20);
    Suffix(NAME, FROM32);
    Suffix(ZERO, FROM39);
    Suffix("*1\r\n", FROM43);
    Deeper(TAIL, 16, 20);
    Deeper(TAIL, 20, 32);
    Deeper(TAIL, 32, 39);
    Deeper(TAIL, 39, 43);
  }

  /** A character of the tail, with the piece it is in. */
  lemma CharAt(i: nat)
    requires i < 50
    ensures |TAIL| == 50
    ensures TAIL[i] == if i < 16 then MARK[i] else if i < 20 then "*2\r\n"[i - 16] else if i < 32 then NAME[i - 20]
                       else if i < 39 then ZERO[i - 32] else if i < 43 then "*1\r\n"[i - 39] else LETTER[i - 43]
  {
    Lengths();
  }

  lemma PieceText()
    ensures |MARK| == 16 && MARK[0] == '#' && forall i :: 1 <= i < 16 ==> MARK[i] !in "*#$"
    ensures |NAME| == 12 && NAME[0] == '$' && forall i :: 1 <= i < 12 ==> NAME[i] !in "*#$"
    ensures |ZERO| == 7 && ZERO[0] == '$' && forall i :: 1 <= i < 7 ==> ZERO[i] !in "*#$"
    ensures |LETTER| == 7 && LETTER[0] == '$' && forall i :: 1 <= i < 7 ==> LETTER[i] !in "*#$"
    ensures forall i :: 1 <= i < 4 ==> "*2\r\n"[i] !in "*#$" && "*1\r\n"[i] !in "*#$"
  {
  }

  lemma TailText(i: nat)
    requires i < 50
    ensures |TAIL| == 50 && (TAIL[i] == '$' ==> i == 20 || i == 32 || i == 43)
    ensures TAIL[i] == '*' ==> i == 16 || i == 39
    ensures TAIL[i] == '#' <==> i == 0
  {
    hide TAIL, MARK, NAME, ZERO, LETTER;
    CharAt(i);
    PieceText();
  }

  lemma SmallDigits()
    ensures Digits(0) == "0" && Digits(1) == "1" && Digits(2) == "2" && Digits(6) == "6"
  {
  }

  lemma TimeDigits()
    ensures Dec(TIME) == "1000000000"
  {
    assert Digits(1) == "1";
    assert Digits(10) == "10";
    assert Digits(100) == "100";
    assert Digits(1000) == "1000";
    assert Digits(10000) == "10000";
    assert Digits(100000) == "100000";
    assert Digits(1000000) == "1000000";
    assert Digits(10000000) == "10000000";
    assert Digits(100000000) == "100000000";
  }

  const SELECT := EncodeCommand(["SELECT", "0"])
  const EXEC := EncodeCommand(["x"])

  lemma Parts()
    ensures SELECT == "*2\r\n" + (EncodeArg("SELECT") + EncodeArg("0")) && EXEC == "*1\r\n" + EncodeArg("x")
    ensures EncodeArg("SELECT") == "$6\r\nSELECT\r\n" && EncodeArg("0") == "$1\r\n0\r\n"
            && EncodeArg("x") == "$1\r\nx\r\n"
  {
    SmallDigits();
    hide Digits;
    var none: seq<string> := [];
    assert ["SELECT", "0"][1..] == ["0"] && ["0"][1..] == none && ["x"][1..] == none;
    assert EncodeArgs(none) == [];
    assert EncodeArg("0") + [] == EncodeArg("0") && EncodeArg("x") + [] == EncodeArg("x");
  }

  lemma TailParts()
    ensures FROM16 == SELECT + EXEC && FROM39 == EXEC && FROM20 == EncodeArg("SELECT") + FROM32
    ensures FROM32 == EncodeArg("0") + FROM39 && FROM43 == EncodeArg("x")
  {
    Parts();
    hide EncodeArg, EncodeCommand;
    assert "*2\r\n" + (NAME + (ZERO + FROM39)) == "*2\r\n" + (NAME + ZERO) + FROM39;
  }

  lemma LostCallBytes()
    ensures Enc(FeedCall(-1, LOST_CALL)) == TAIL && ValidCall(LOST_CALL)
  {
    hide Dec, EncodeCommand, KindOf, Encode, Writable;
    TimeDigits();
    MarkedBytes(LOST_CALL);
    SelectBytes(Write(0, ["x"]));
    EncFirst(Exec(["x"]), []);
    assert [Exec(["x"])] + [] == [Exec(["x"])];
    RunNothing();
    CommandItem(["x"]);
    SmallDigits();
    TailParts();
    assert EncodeItem(Stamp(Note(TIME))) == MARK;
    hide EncodeItem;
    assert Enc([Exec(["x"])]) == EXEC;
    assert SelectCommand(0) == ["SELECT", "0"];
    LostCallValid();
  }

  lemma LostCallValid()
    ensures ValidEntry(Select(0)) && ValidEntry(Exec(["x"]))
  {
    SmallDigits();
    hide Digits;
    assert Lower("x") == "x";
  }

  // ----- arguments read from inside the tail -----

  /** One argument read from inside the tail. */
  lemma ArgAt(at: nat)
    requires 1 <= at <= 50
    ensures var a := ParseArg(TAIL[at..]);
            if at == 20 then a == Arg("SELECT", TAIL[32..])
            else if at == 32 then a == Arg("0", TAIL[39..])
            else if at == 43 then a == Arg("x", TAIL[50..])
            else a.Stop?
  {
    hide ParseArg, EncodeArg, TAIL, FROM16, FROM20, FROM32, FROM39, FROM43;
    Suffixes();
    TailParts();
    ShortOnes();
    if at == 20 {
      ArgReads("SELECT", TAIL[32..]);
    } else if at == 32 {
      ArgReads("0", TAIL[39..]);
    } else if at == 43 {
      ArgReads("x", []);
      assert EncodeArg("x") + [] == EncodeArg("x");
    } else {
      if at < 50 {
        TailText(at);
      }
      NoArgument(TAIL[at..]);
    }
  }

  lemma ShortOnes()
    ensures Short(1) && Short(6)
  {
  }

  lemma NoArgument(text: string)
    requires text == [] || text[0] != '$'
    ensures ParseArg(text).Stop?
  {
    hide LineLength, Atoi;
  }

  /** Where reading goes on behind the missing arguments of a command, if they can be read. */
  lemma ArgsAt(at: nat, k: nat, argv: Command)
    requires 1 <= at <= 50
    ensures var p := ParseArgs(TAIL[at..], k, argv);
            p.Got? ==> && argv <= p.argv && |p.argv| == |argv| + k
                       && (k == 0 ==> p.rest == TAIL[at..])
                       && (k > 0 ==> p.rest == TAIL[32..] || p.rest == TAIL[39..] || p.rest == TAIL[50..])
  {
    hide ParseArg;
    ArgAt(at);
    if k > 0 {
      if at == 20 {
        ArgsFrom32(k - 1, argv + ["SELECT"]);
      } else if at == 32 {
        ArgsFrom39(k - 1, argv + ["0"]);
      } else if at == 43 {
        ArgsFrom50(k - 1, argv + ["x"]);
      }
    }
  }

  lemma ArgsFrom50(k: nat, argv: Command)
    ensures var p := ParseArgs(TAIL[50..], k, argv); p.Got? ==> k == 0 && p == Got(argv, TAIL[50..])
  {
    hide ParseArg;
    ArgAt(50);
  }

  lemma ArgsFrom39(k: nat, argv: Command)
    ensures var p := ParseArgs(TAIL[39..], k, argv); p.Got? ==> k == 0 && p == Got(argv, TAIL[39..])
  {
    hide ParseArg;
    ArgAt(39);
  }

  lemma ArgsFrom32(k: nat, argv: Command)
    ensures var p := ParseArgs(TAIL[32..], k, argv);
            p.Got? ==> k <= 1 && p == if k == 0 then Got(argv, TAIL[32..]) else Got(argv + ["0"], TAIL[39..])
  {
    hide ParseArg;
    ArgAt(32);
    if k > 0 {
      ArgsFrom39(k - 1, argv + ["0"]);
    }
  }

  // ----- the argument that was cut -----

  /** A piece of a number is read as a number that is not larger. */
  lemma CutNumber(n: nat, k: nat, tail: string)
    requires k <= |Digits(n)| && tail != [] && !IsDigit(tail[0]) && (k == 0 ==> tail[0] == '#')
    ensures 0 <= Atoi(Digits(n)[..k] + tail) <= n
  {
    var a, b := Digits(n)[..k], Digits(n)[k..];
    var s := a + tail;
    assert SkipBlanks(s) == s by { assert s[0] == if k == 0 then tail[0] else Digits(n)[0]; }
    assert a + b == Digits(n);
    ReadDigitsOf(n);
    ReadDigitsConcat(a, tail, 0);
    ReadDigitsConcat(a, b, 0);
    ReadDigitsGrows(b, ReadDigits(a, 0));
    assert ReadDigits(tail, ReadDigits(a, 0)) == ReadDigits(a, 0);
  }

  /** The length line of an argument, cut, with the annotation behind it. */
  lemma CutLengthLine(n: nat, m: nat)
    requires Short(n) && 0 < m < |CountLine('$', n)|
    ensures var text := CountLine('$', n)[..m] + TAIL;
            && text[0] == '$' && LineLength(text, LINE_ROOM) == m + 16 && text[m + 16..] == FROM16
            && 0 <= Atoi(text[1..m + 16]) <= n
  {
    hide LineLength, Atoi, FROM16, TAIL, MARK;
    var q, d := CountLine('$', n)[..m], Digits(n);
    assert '\n' !in d;
    hide Digits;
    assert '\n' !in q;
    LineInto(q);
    var k := if m - 1 <= |d| then m - 1 else |d|;
    var tail := if m - 1 <= |d| then MARK else ['\r'] + MARK;
    assert q[1..] + MARK == d[..k] + tail;
    MarkStarts();
    CutNumber(n, k, tail);
    var text := q + TAIL;
    assert text[1..m + 16] == (q + MARK)[1..] == q[1..] + MARK;
  }

  lemma MarkStarts()
    ensures |MARK| == 16 && MARK[0] == '#' && |TAIL| == 50 && TAIL[0] == '#' && TAIL[16] == '*'
    ensures MARK == "#TS:1000000000\r" + ['\n'] && TAIL == MARK + FROM16 && |FROM16| == 34 && FROM16[0] == '*'
  {
    Lengths();
  }

  /** The line that the annotation completes. */
  lemma LineInto(q: string)
    requires '\n' !in q && |q| <= 100
    ensures var text := q + TAIL;
            && LineLength(text, LINE_ROOM) == |q| + 16 && text[|q| + 16..] == FROM16 && text[..|q| + 16] == q + MARK
  {
    hide LineLength, FROM16, TAIL, MARK;
    MarkStarts();
    var line := "#TS:1000000000\r";
    assert |line| == 15 && '\n' !in line;
    LineLengthIs(q + line, FROM16, LINE_ROOM);
    assert q + TAIL == q + line + ['\n'] + FROM16;
  }

  /** The argument holds the first character of the annotation or of the SELECT. */
  predicate HasMark(arg: string) {
    '#' in arg || '*' in arg
  }

  /** Where a command that was cut can end so that reading goes on. */
  predicate Lands(at: nat) {
    at == 16 || at == 39 || at == 50
  }

  /** The argument that was cut is completed from the tail, if at all. */
  lemma TornArg(arg: string, m: nat) returns (at: nat)
    requires Short(|arg|) && m < |EncodeArg(arg)|
    ensures 1 <= at <= 50
    ensures var a := ParseArg(EncodeArg(arg)[..m] + TAIL);
            a.Arg? ==> && a.rest == TAIL[at..] && (at == 1 || at == 2 || at == 18 || HasMark(a.value))
                       && (|arg| <= 10 ==> !Lands(at))
  {
    hide LineLength, Atoi, Digits;
    var head, text := CountLine('$', |arg|), EncodeArg(arg)[..m] + TAIL;
    MarkStarts();
    hide TAIL, FROM16, ParseArg;
    at := 1;
    if m == 0 {
      assert text == TAIL;
      NoArgument(text);
    } else if m < |head| {
      at := TornLength(arg, m);
    } else {
      at := TornValue(arg, m);
    }
  }

  lemma TornLength(arg: string, m: nat) returns (at: nat)
    requires Short(|arg|) && 0 < m < |CountLine('$', |arg|)|
    ensures 1 <= at <= 50
    ensures var a := ParseArg(EncodeArg(arg)[..m] + TAIL);
            a.Arg? ==> && a.rest == TAIL[at..] && (at == 18 || HasMark(a.value)) && (|arg| <= 10 ==> !Lands(at))
  {
    hide LineLength, Atoi, Digits, FROM16, TAIL, MARK;
    var head, text := CountLine('$', |arg|), EncodeArg(arg)[..m] + TAIL;
    assert EncodeArg(arg)[..m] == head[..m];
    CutLengthLine(|arg|, m);
    Suffixes();
    MarkStarts();
    var len := Atoi(text[1..m + 16]);
    at := if len <= 32 then 18 + len else 1;
    if len <= 32 {
      assert FROM16[len + 2..] == TAIL[at..];
      if len > 0 {
        assert FROM16[..len][0] == '*';
      }
    }
  }

  lemma TornValue(arg: string, m: nat) returns (at: nat)
    requires Short(|arg|) && |CountLine('$', |arg|)| <= m < |EncodeArg(arg)|
    ensures 1 <= at <= 50
    ensures var a := ParseArg(EncodeArg(arg)[..m] + TAIL);
            a.Arg? ==> && a.rest == TAIL[at..] && (at == 1 || at == 2 || HasMark(a.value))
                       && (|arg| <= 10 ==> !Lands(at))
  {
    hide LineLength, Atoi, Digits, FROM16, TAIL, ParseArg;
    var head, len := CountLine('$', |arg|), |arg|;
    MarkStarts();
    var v := (arg + CRLF)[..m - |head|];
    assert EncodeArg(arg) == head + (arg + CRLF);
    var data := v + TAIL;
    assert EncodeArg(arg)[..m] + TAIL == head + data;
    ValueReads(len, data);
    at := if |data| >= len + 2 then len + 2 - |v| else 1;
    if |data| >= len + 2 {
      assert data[len + 2..] == TAIL[at..];
      if |v| < len {
        assert data[..len][|v|] == TAIL[0];
      }
    }
  }

  lemma ValueReads(len: nat, data: string)
    requires Short(len)
    ensures ParseArg(CountLine('$', len) + data)
            == if |data| < len + 2 then Stop(ShortRead) else Arg(data[..len], data[len + 2..])
  {
    hide LineLength, Atoi, Digits;
    CountLineReads('$', len, data);
  }

  // ----- the command that was cut -----

  /** The arguments of a command that was cut: those before argument `torn` are its own. */
  lemma {:induction false} TornArgs(args: seq<string>, m: nat, argv: Command) returns (torn: nat, at: nat)
    requires forall i :: 0 <= i < |args| ==> Short(|args[i]|)
    requires m < |EncodeArgs(args)|
    ensures torn < |args| && 1 <= at <= 50
    ensures var p := ParseArgs(EncodeArgs(args)[..m] + TAIL, |args|, argv);
            p.Got? ==> && |p.argv| == |argv| + |args| && argv + args[..torn] <= p.argv && p.rest == TAIL[at..]
                       && (Lands(at) ==> HasMark(p.argv[|argv| + torn]))
                       && (torn == |args| - 1 && |args[torn]| <= 10 ==> !Lands(at))
    decreases |args|
  {
    hide ParseArg, EncodeArg, Short, TAIL, HasMark;
    var first := EncodeArg(args[0]);
    if m < |first| {
      torn := 0;
      at := TornArg(args[0], m);
      assert EncodeArgs(args)[..m] == first[..m];
      at := TornFirst(args, m, argv, at);
    } else {
      var more := EncodeArgs(args[1..])[..m - |first|];
      assert EncodeArgs(args)[..m] + TAIL == first + (more + TAIL);
      ArgReads(args[0], more + TAIL);
      torn, at := TornArgs(args[1..], m - |first|, argv + [args[0]]);
      assert argv + [args[0]] + args[1..][..torn] == argv + args[..torn + 1];
      torn := torn + 1;
    }
  }

  lemma TornFirst(args: seq<string>, m: nat, argv: Command, at0: nat) returns (at: nat)
    requires args != [] && 1 <= at0 <= 50 && m <= |EncodeArg(args[0])|
    requires var a := ParseArg(EncodeArg(args[0])[..m] + TAIL);
             a.Arg? ==> && a.rest == TAIL[at0..] && (at0 == 1 || at0 == 2 || at0 == 18 || HasMark(a.value))
                        && (|args[0]| <= 10 ==> !Lands(at0))
    ensures 1 <= at <= 50
    ensures var p := ParseArgs(EncodeArg(args[0])[..m] + TAIL, |args|, argv);
            p.Got? ==> && |p.argv| == |argv| + |args| && argv <= p.argv && p.rest == TAIL[at..]
                       && (Lands(at) ==> HasMark(p.argv[|argv|]))
                       && (|args| == 1 && |args[0]| <= 10 ==> !Lands(at))
  {
    hide ParseArg, EncodeArg, TAIL, HasMark;
    MarkStarts();
    at := at0;
    var a, k := ParseArg(EncodeArg(args[0])[..m] + TAIL), |args| - 1;
    if a.Arg? {
      var p := ParseArgs(TAIL[at0..], k, argv + [a.value]);
      ArgsAt(at0, k, argv + [a.value]);
      if p.Got? {
        assert p.argv[|argv|] == a.value;
        if k > 0 {
          OnlyArguments(at0, k, argv + [a.value]);
          at := if p.rest == TAIL[32..] then 32 else if p.rest == TAIL[39..] then 39 else 50;
        }
      }
    }
  }

  lemma OnlyArguments(at: nat, k: nat, argv: Command)
    requires 1 <= at <= 50 && k > 0 && ParseArgs(TAIL[at..], k, argv).Got?
    ensures at == 20 || at == 32 || at == 43
  {
    hide ParseArg, TAIL;
    ArgAt(at);
  }

  lemma TornCommand(argv: Command, m: nat) returns (torn: nat, at: nat)
    requires Writable(Cmd(argv)) && 0 < m < |EncodeCommand(argv)|
    ensures torn < |argv| && 1 <= at <= 50
    ensures var p := ParseItem(EncodeCommand(argv)[..m] + TAIL);
            && !p.AtEnd? && !p.Annotation?
            && (p.Got? ==> && |p.argv| == |argv| && argv[..torn] <= p.argv && p.rest == TAIL[at..]
                           && (Lands(at) ==> HasMark(p.argv[torn]))
                           && (torn == |argv| - 1 && |argv[torn]| <= 10 ==> !Lands(at)))
  {
    hide Digits, Atoi, LineLength, EncodeArgs, ParseArgs, TAIL, HasMark;
    var head, text := CountLine('*', |argv|), EncodeCommand(argv)[..m] + TAIL;
    assert EncodeCommand(argv) == head + EncodeArgs(argv) && text[0] == '*';
    if m < |head| {
      torn, at := 0, 1;
      assert EncodeCommand(argv)[..m] == head[..m];
      CutCountLine(|argv|, m);
    } else {
      var tail := EncodeArgs(argv)[..m - |head|];
      assert text == head + (tail + TAIL);
      CountLineReads('*', |argv|, tail + TAIL);
      torn, at := TornArgs(argv, m - |head|, []);
      assert [] + argv[..torn] == argv[..torn];
    }
  }

  /** The first line, cut: whatever count it gives, no argument follows. */
  lemma CutCountLine(n: nat, m: nat)
    requires Short(n) && 0 < m < |CountLine('*', n)|
    ensures var p := ParseItem(CountLine('*', n)[..m] + TAIL); !p.Got? && !p.AtEnd? && !p.Annotation?
  {
    hide LineLength, Atoi, FROM16, TAIL, MARK, ParseArg;
    var q := CountLine('*', n)[..m];
    assert '\n' !in Digits(n);
    hide Digits;
    assert '\n' !in q && q[0] == '*';
    LineInto(q);
    MarkStarts();
    var text := q + TAIL;
    assert text[0] == '*';
    NoArgument(FROM16);
  }

  // ----- what is loaded -----

  lemma PlainCommands()
    ensures KindOf(["x"]) == Some(Other) && KindOf(["SELECT", "0"]) == Some(Other)
    ensures !IsSelect(["x"]) && IsSelect(["SELECT", "0"]) && Atoi("0") == 0
    ensures Writable(Cmd(["x"])) && Writable(Cmd(["SELECT", "0"]))
  {
    SmallDigits();
    assert Lower("x") == "x" && Lower("SELECT") == "select";
    assert SkipBlanks("0") == "0";
  }

  /** The commands that follow in the tail. */
  function Following(at: nat): seq<Command>
    requires Lands(at)
  {
    if at == 16 then [["SELECT", "0"], ["x"]] else if at == 39 then [["x"]] else []
  }

  function FollowingItems(at: nat): seq<Item>
    requires Lands(at)
  {
    if at == 16 then [Cmd(["SELECT", "0"]), Cmd(["x"])] else if at == 39 then [Cmd(["x"])] else []
  }

  lemma FollowingBytes(at: nat)
    requires Lands(at)
    ensures |TAIL| == 50 && TAIL[at..] == Encode(FollowingItems(at))
    ensures Loadable(FollowingItems(at), KindOf)
  {
    hide EncodeCommand, TAIL, FROM16, FROM39, KindOf, Writable;
    Suffixes();
    TailParts();
    PlainCommands();
    EncodeOne(Cmd(["x"]));
    assert [Cmd(["SELECT", "0"]), Cmd(["x"])][1..] == [Cmd(["x"])];
  }

  /** A client after commands that are neither MULTI nor EXEC. */
  function After(c: Client, cmds: seq<Command>): Client {
    if c.queue.Some? then c.(queue := Some(c.queue.value + cmds)) else c.(done := c.done + cmds)
  }

  lemma LoadRest(at: nat, l: Loader)
    requires 1 <= at <= 50
    ensures |TAIL| == 50 && (!Lands(at) ==> LoadFrom(TAIL[at..], l, KindOf).0 == FormatError)
    ensures Lands(at) ==> var r := LoadFrom(TAIL[at..], l, KindOf);
                          var c := After(l.client, Following(at));
                          r.0 == (if c.queue.Some? then OpenMulti else Loaded) && r.1.client == c
  {
    hide TAIL, KindOf, LoadFrom;
    MarkStarts();
    if Lands(at) {
      var items := FollowingItems(at);
      FollowingBytes(at);
      LoadThrough(items, [], l, KindOf);
      assert Encode(items) + [] == Encode(items);
      EofLoads(RunItems(l, items, KindOf));
      RunFollowing(at, l);
    } else {
      TailText(at);
      NotACommand(TAIL[at..], l);
    }
  }

  lemma EofLoads(l: Loader)
    ensures LoadFrom([], l, KindOf) == AtEof(l)
  {
    ParseNothing();
  }

  lemma RunFollowing(at: nat, l: Loader)
    requires Lands(at) && Loadable(FollowingItems(at), KindOf)
    ensures RunItems(l, FollowingItems(at), KindOf).client == After(l.client, Following(at))
  {
    hide KindOf, EncodeItem, Writable;
    PlainCommands();
    var items := FollowingItems(at);
    if at == 16 {
      assert items[1..] == [Cmd(["x"])] && items[1..][1..] == [];
      var a := RunItem(l, items[0], KindOf);
      var b := RunItem(a, items[1..][0], KindOf);
      assert RunItems(b, [], KindOf) == b && RunItems(a, items[1..], KindOf) == b;
      var c := l.client;
      if c.queue.Some? {
        assert c.queue.value + [["SELECT", "0"]] + [["x"]] == c.queue.value + Following(at);
      } else {
        assert c.done + [["SELECT", "0"]] + [["x"]] == c.done + Following(at);
      }
    } else if at == 39 {
      assert items[1..] == [];
    } else {
      assert l.client.done + [] == l.client.done;
      if l.client.queue.Some? {
        assert l.client.queue.value + [] == l.client.queue.value;
      }
    }
  }

  lemma MarkNotWord(arg: string)
    requires HasMark(arg)
    ensures Lower(arg) != "multi" && Lower(arg) != "exec" && Lower(arg) != "select" && arg != "x"
  {
    var i :| 0 <= i < |arg| && (arg[i] == '#' || arg[i] == '*');
    assert Lower(arg)[i] == arg[i];
  }

  /** The completed command is an ordinary one. */
  lemma TornIsOther(e: Entry, argv: Command, torn: nat, at: nat)
    requires ValidEntry(e) && !e.Mark? && torn < |ItemOf(e).argv| == |argv| && ItemOf(e).argv[..torn] <= argv
    requires Lands(at) && HasMark(argv[torn])
    requires !(torn == |argv| - 1 && |ItemOf(e).argv[torn]| <= 10)
    ensures KindOf(argv) == Some(Other) && !IsSelect(argv) && argv != ["x"]
  {
    hide Lower, HasMark, Writable;
    MarkNotWord(argv[torn]);
    if torn > 0 {
      var own := ItemOf(e).argv;
      assert own[..torn][0] == own[0] && argv[0] == own[0];
      SelectIsOther(e);
    }
  }

  lemma SelectIsOther(e: Entry)
    requires ValidEntry(e) && !e.Mark? && |ItemOf(e).argv| > 1
    ensures KindOf(ItemOf(e).argv) == Some(Other)
    ensures IsSelect(ItemOf(e).argv) ==> |ItemOf(e).argv[1]| <= 10
  {
    KindsOfBrackets();
  }

  /** What the completed command and those behind it perform is not the write that was made. */
  lemma NotTheWrite(done: seq<Command>, argv: Command, at: nat)
    requires Lands(at) && Interpret(done) == [] && DbOf(done) >= 0 && !IsSelect(argv) && argv != ["x"]
    ensures Interpret(done + [argv] + Following(at)) != [Write(0, ["x"])]
  {
    hide Interpret, DbOf, IsSelect, Atoi;
    PlainCommands();
    var a := done + [argv];
    InterpretSnoc(done, argv);
    assert Interpret(a) == [Write(DbOf(done), argv)];
    if at == 16 {
      InterpretSnoc(a, ["SELECT", "0"]);
      InterpretSnoc(a + [["SELECT", "0"]], ["x"]);
      assert a + [["SELECT", "0"]] + [["x"]] == a + Following(at);
    } else if at == 39 {
      InterpretSnoc(a, ["x"]);
    } else {
      assert a + [] == a;
      assert Interpret(a)[0].cmd == argv;
    }
  }

  /** An annotated write behind a command that was cut is not read back: another command takes it,
      or its beginning. */
  lemma TornNotKept(es: seq<Entry>, e: Entry, m: nat)
    requires WellFed(es) && ValidEntry(e) && !e.Mark? && 0 < m < |EncodeItem(ItemOf(e))| && Replay(Settled(es)) == []
    ensures var file := Enc(es) + EncodeItem(ItemOf(e))[..m] + TAIL;
            !(LoadLog(file).0.Loaded? && Performed(file) == [Write(0, ["x"])])
  {
    hide LoadFrom, RunItems, Encode, WellFed, Interpret, Cmds, Replay, Settled, InMulti, Queue, TAIL, EncodeCommand,
      ValidEntry, KindOf, IsSelect, HasMark, ParseItem;
    var argv := ItemOf(e).argv;
    var q := EncodeCommand(argv)[..m];
    CommandItem(argv);
    FedLoadable(es);
    RunLog(es);
    var l := RunItems(START, ItemsOf(es), KindOf);
    assert Enc(es) + q + TAIL == Encode(ItemsOf(es)) + (q + TAIL);
    LoadThrough(ItemsOf(es), q + TAIL, START, KindOf);
    EntryWritable(e);
    var torn, at := TornCommand(argv, m);
    var p := ParseItem(q + TAIL);
    LoadItem(q + TAIL, l);
    if p.Got? {
      MarkStarts();
      KindGiven(p.argv);
      LoadRest(at, Ran(l, p.argv, KindOf(p.argv).value, |q + TAIL| - |p.rest|));
      if Lands(at) {
        TornIsOther(e, p.argv, torn, at);
        TornClient(es, l.client, p.argv, at);
      }
    }
  }

  lemma EntryWritable(e: Entry)
    requires ValidEntry(e)
    ensures Writable(ItemOf(e))
  {
  }

  lemma KindGiven(argv: Command)
    requires argv != []
    ensures KindOf(argv).Some?
  {
  }

  lemma LoadItem(text: string, l: Loader)
    ensures var p := ParseItem(text);
            && (p.Got? && KindOf(p.argv).Some? ==>
                  LoadFrom(text, l, KindOf)
                  == LoadFrom(p.rest, Ran(l, p.argv, KindOf(p.argv).value, |text| - |p.rest|), KindOf))
            && (!p.Got? && !p.AtEnd? && !p.Annotation? ==> !LoadFrom(text, l, KindOf).0.Loaded?)
  {
    hide ParseItem, KindOf;
  }

  lemma TornClient(es: seq<Entry>, c: Client, argv: Command, at: nat)
    requires WellFed(es) && c == ClientOf(es) && Replay(Settled(es)) == [] && Lands(at)
    requires !IsSelect(argv) && argv != ["x"]
    ensures var d := After(RunOne(c, argv, Other), Following(at));
            d.queue.Some? || Interpret(d.done) != [Write(0, ["x"])]
  {
    hide WellFed, Interpret, Cmds, Replay, Settled, InMulti, Queue, IsSelect, DbOf;
    if c.queue.None? {
      SettledAsIs(es);
      InterpretLog(es);
      NotTheWrite(c.done, argv, at);
    }
  }

  /** A file that ends inside a command: some first write is lost if the file is not truncated. */
  lemma ShortEndNotKept(log: seq<Entry>, n: nat)
    requires WellFed(log) && n <= |Enc(log)| && LoadLog(Enc(log)[..n]).0.ShortEnd? && Performed(Enc(log)[..n]) == []
    ensures var file := Enc(log)[..n] + Enc(FeedCall(-1, LOST_CALL));
            !(LoadLog(file).0.Loaded? && Performed(file) == [LOST_CALL.what.w])
  {
    hide LoadLog, Performed, Enc, WellFed, InMulti, Replay, Settled, Complete, EncodeItem, ValidEntry, FeedCall, TAIL,
      LoadedFile;
    TornLogReplays(log, n);
    CompleteEnds(log, n);
    CompletePrefix(log, n);
    var es := Complete(log, n);
    WellFedPrefix(log, |es|);
    AllValid(log);
    var e, m := log[|es|], n - |Enc(es)|;
    CutBytes(log, |es|, m);
    assert log[..|es|] == es;
    LostCallBytes();
    TornNotKept(es, e, m);
  }

  // ----- a transaction that was cut -----

  lemma OpenLogStatus(log: seq<Entry>)
    requires WellFed(log) && InMulti(log)
    ensures LoadLog(Enc(log)).0.OpenMulti?
  {
    hide LoadLog, Enc, WellFed, InMulti, Replay, Settled, Complete, Performed, LoadedFile;
    AllComplete(log);
    TornLogReplays(log, |Enc(log)|);
    assert Enc(log)[..|Enc(log)|] == Enc(log);
  }

  /** A write behind an open transaction is withheld. */
  lemma OpenMultiNotKept(log: seq<Entry>, n: nat, c: Call)
    requires WellFed(log) && n <= |Enc(log)| && LoadLog(Enc(log)[..n]).0.OpenMulti? && ValidCall(c) && c.what.Perform?
    ensures !LoadLog(Enc(log)[..n] + Enc(FeedCall(-1, c))).0.Loaded?
  {
    hide LoadLog, Enc, WellFed, InMulti, Replay, Settled, Complete, Performed, LoadedFile, FeedCall, ValidCall,
      EncodeItem, IsCut, Joins, ValidEntry;
    TornLogReplays(log, n);
    CompleteEnds(log, n);
    CompletePrefix(log, n);
    var es := Complete(log, n);
    WellFedPrefix(log, |es|);
    if n == |Enc(es)| {
      AppendCall(es, c);
      OpenLogStatus(es + FeedCall(-1, c));
    } else {
      AllValid(log);
      var e, k := log[|es|], n - |Enc(es)|;
      CutBytes(log, |es|, k);
      assert log[..|es|] == es;
      CutOfEntry(e, k);
      var cut := EncodeItem(Stamp(e.note))[..k];
      if Joins(cut, c) {
        JoinsOpen(es, cut, e.note, c);
      } else {
        NotJoined(es, cut, e.note, c);
      }
    }
  }

  lemma JoinsOpen(es: seq<Entry>, cut: string, note: string, c: Call)
    requires WellFed(es) && InMulti(es) && IsCut(cut, note) && ValidCall(c) && c.what.Perform? && Joins(cut, c)
    ensures LoadLog(Enc(es) + cut + Enc(FeedCall(-1, c))).0.OpenMulti?
  {
    hide LoadLog, Enc, WellFed, InMulti, Replay, IsCut, ValidEntry, DbAfter, Note, FeedWhat, FeedCall, Joins,
      ValidCall;
    JoinsMark(cut, c);
    var mark, rest := Note(c.mark.value), FeedWhat(-1, c.what);
    CutText(cut, note);
    JoinedValid(cut, note, c);
    var long := Mark(cut[1..] + "#" + mark);
    Snoc(es, long);
    Unmarked(c);
    AppendCall(es + [long], c.(mark := None));
    OpenLogStatus(es + [long] + rest);
    JoinedFile(es, cut, mark, rest);
  }

  lemma JoinedFile(es: seq<Entry>, cut: string, mark: string, rest: seq<Entry>)
    requires cut != [] && cut[0] == '#'
    ensures Enc(es + [Mark(cut[1..] + "#" + mark)] + rest) == Enc(es) + cut + Enc([Mark(mark)] + rest)
  {
    hide Enc, Joined;
    var long, own := Mark(cut[1..] + "#" + mark), [Mark(mark)] + rest;
    JoinedIs(cut, mark, rest);
    JoinedBytes(cut, own);
    EncConcat(es, [long] + rest);
    assert es + ([long] + rest) == es + [long] + rest;
    assert Enc(es) + (cut + Enc(own)) == Enc(es) + cut + Enc(own);
  }

  lemma Unmarked(c: Call)
    requires c.mark.Some? && ValidCall(c)
    ensures FeedCall(-1, c) == [Mark(Note(c.mark.value))] + FeedWhat(-1, c.what)
    ensures FeedCall(-1, c.(mark := None)) == FeedWhat(-1, c.what) && ValidCall(c.(mark := None))
  {
    hide FeedWhat, Note, ValidWrite;
    assert [] + FeedWhat(-1, c.what) == FeedWhat(-1, c.what);
  }

  /** The first write behind a file that performs nothing, if this is not truncated: exactly when
      it is read back, for a file that loads to its end; and for any other file, one that is not. */
  lemma AppendNeedsWhole(bytes: string)
    requires IsTorn(bytes) && Performed(bytes) == []
    ensures LoadLog(bytes).0.Loaded? ==>
              forall c: Call :: ValidCall(c) && c.what.Perform? ==>
                (ReadBack(bytes, c) <==> LastLine(bytes) == [] || Joins(LastLine(bytes), c))
    ensures !LoadLog(bytes).0.Loaded? ==> !ReadBack(bytes, LOST_CALL)
  {
    hide LoadLog, Performed, LoadedFile, Enc, WellFed, FeedCall, Joins, ValidCall, LastLine;
    LoadTwice(bytes);
    var log, n: nat :| TornFrom(log, n, bytes);
    if LoadLog(bytes).0.Loaded? {
      UnchangedIfLoaded(bytes);
      forall c: Call | ValidCall(c) && c.what.Perform?
        ensures ReadBack(bytes, c) <==> LastLine(bytes) == [] || Joins(LastLine(bytes), c)
      {
        AppendNeedsResumable(log, n, c);
        assert [] + [c.what.w] == [c.what.w];
      }
    } else if LoadLog(bytes).0.ShortEnd? {
      ShortEndNotKept(log, n);
    } else {
      LostCallBytes();
      OpenMultiNotKept(log, n, LOST_CALL);
    }
  }

  /** The bytes of a call, behind those of a file, are read back as its write alone. */
  predicate ReadBack(bytes: string, c: Call)
    requires c.what.Perform?
  {
    var file := bytes + Enc(FeedCall(-1, c));
    LoadLog(file).0.Loaded? && Performed(file) == [c.what.w]
  }
}
