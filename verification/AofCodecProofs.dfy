/** Loading what was written: the whole log, and any byte prefix of it. */
module AofCodecProofs {
  import opened Options
  import opened Decimal
  import opened Stdio
  import opened AofCodec

  // ----- numbers that fit a line -----

  /** Counts and lengths are C integers: at most twenty digits. */
  predicate Short(n: nat) {
    |Digits(n)| <= 20
  }

  /** Commands have a name, and all numbers in the item are C integers; annotations are lines that
      fit the buffer of the reader. */
  predicate Writable(item: Item) {
    match item
    case Cmd(argv) => argv != [] && Short(|argv|) && forall i :: 0 <= i < |argv| ==> Short(|argv[i]|)
    case Stamp(note) => '\n' !in note && |note| + 3 <= LINE_ROOM
  }

  /** The line that announces a count: `c`, the digits, and the line end. */
  function CountLine(c: char, n: nat): string {
    [c] + Digits(n) + CRLF
  }

  lemma CountLineReads(c: char, n: nat, rest: string)
    requires Short(n) && c != '\n'
    ensures var text := CountLine(c, n) + rest;
            var k := LineLength(text, LINE_ROOM);
            k == |CountLine(c, n)| && text[k..] == rest && Atoi(text[1..k]) == n && k > 1 && text[1] != NUL
  {
    assert Digits(n)[0] != NUL;
    var body := [c] + Digits(n) + ['\r'];
    var text := CountLine(c, n) + rest;
    assert '\n' !in Digits(n);
    hide Digits, Atoi, LineLength;
    assert text == body + ['\n'] + rest && '\n' !in body;
    LineLengthIs(body, rest, LINE_ROOM);
    var k := |body| + 1;
    assert text[k..] == rest;
    assert text[1..k] == Digits(n) + CRLF && Dec(n) == Digits(n);
    AtoiOfDec(n, CRLF);
  }

  // ----- a cut count line -----

  lemma {:induction false} ReadDigitsGrows(s: string, acc: nat)
    ensures ReadDigits(s, acc) >= acc
    decreases |s|
  {
    if s != [] && IsDigit(s[0]) {
      ReadDigitsGrows(s[1..], 10 * acc + DigitValue(s[0]));
    }
  }

  lemma {:induction false} DigitsLead(n: nat)
    requires n > 0
    ensures Digits(n)[0] != '0'
  {
    if n >= 10 {
      DigitsLead(n / 10);
    }
  }

  /** Reading the beginning of a count never gives a negative number, and gives at least 1 when
      the count is positive and its first digit is there. */
  lemma CutCount(n: nat, k: nat)
    requires k <= |Digits(n)| + 1
    ensures var cut := (Digits(n) + CRLF)[..k];
            Atoi(cut) >= 0 && (n > 0 && k > 0 ==> Atoi(cut) >= 1)
  {
    var cut := (Digits(n) + CRLF)[..k];
    if k == 0 {
      assert cut == [] && SkipBlanks([]) == [];
    } else {
      var d := Digits(n)[0];
      assert cut[0] == d && SkipBlanks(cut) == cut;
      ReadDigitsGrows(cut[1..], DigitValue(d));
      if n > 0 {
        DigitsLead(n);
      }
      assert ReadDigits(cut, 0) == ReadDigits(cut[1..], DigitValue(d));
    }
  }

  /** A count line that the file cuts short is read up to the end of the file. */
  lemma CutLineReads(c: char, n: nat, k: nat)
    requires Short(n) && c != '\n' && 0 < k < |CountLine(c, n)|
    ensures var text := CountLine(c, n)[..k];
            && text[0] == c && LineLength(text, LINE_ROOM) == k
            && Atoi(text[1..k]) >= 0 && (n > 0 && k > 1 ==> Atoi(text[1..k]) >= 1)
            && HitsEnd(text, k) && (k > 1 ==> text[1] != NUL)
  {
    assert Digits(n)[0] != NUL;
    var text := CountLine(c, n)[..k];
    assert '\n' !in Digits(n);
    hide Digits, Atoi, LineLength;
    assert '\n' !in text;
    LastLineLength(text, LINE_ROOM);
    assert text[1..k] == (Digits(n) + CRLF)[..k - 1];
    CutCount(n, k - 1);
  }

  // ----- arguments -----

  lemma ArgReads(a: string, rest: string)
    requires Short(|a|)
    ensures ParseArg(EncodeArg(a) + rest) == Arg(a, rest)
  {
    var head, tail := CountLine('$', |a|), a + CRLF + rest;
    var text := EncodeArg(a) + rest;
    assert text == head + tail && text[0] == '$';
    hide Digits, Atoi, LineLength;
    CountLineReads('$', |a|, tail);
    assert tail[..|a|] == a && tail[|a| + 2..] == rest;
  }

  lemma CutArg(a: string, k: nat)
    requires Short(|a|) && k < |EncodeArg(a)|
    ensures ParseArg(EncodeArg(a)[..k]) == Stop(ShortRead)
  {
    var head := CountLine('$', |a|);
    var text := EncodeArg(a)[..k];
    hide Digits, Atoi, LineLength;
    assert EncodeArg(a) == head + (a + CRLF);
    if k == 0 {
    } else if k < |head| {
      assert text == head[..k];
      CutLineReads('$', |a|, k);
      assert text[k..] == [];
    } else {
      var tail := (a + CRLF)[..k - |head|];
      assert text == head + tail && text[0] == '$';
      CountLineReads('$', |a|, tail);
    }
  }

  lemma {:induction false} ArgsRead(args: seq<string>, rest: string, argv: Command)
    requires forall i :: 0 <= i < |args| ==> Short(|args[i]|)
    ensures ParseArgs(EncodeArgs(args) + rest, |args|, argv) == Got(argv + args, rest)
    decreases |args|
  {
    hide ParseArg, EncodeArg, Short;
    if args == [] {
      assert EncodeArgs(args) + rest == rest && argv + args == argv;
    } else {
      var more := EncodeArgs(args[1..]) + rest;
      assert EncodeArgs(args) + rest == EncodeArg(args[0]) + more;
      ArgReads(args[0], more);
      ArgsRead(args[1..], rest, argv + [args[0]]);
      assert argv + [args[0]] + args[1..] == argv + args;
    }
  }

  lemma {:induction false} CutArgs(args: seq<string>, k: nat, argv: Command)
    requires forall i :: 0 <= i < |args| ==> Short(|args[i]|)
    requires k < |EncodeArgs(args)|
    ensures ParseArgs(EncodeArgs(args)[..k], |args|, argv) == ShortRead
    decreases |args|
  {
    hide ParseArg, EncodeArg, Short;
    var first := EncodeArg(args[0]);
    if k < |first| {
      assert EncodeArgs(args)[..k] == first[..k];
      CutArg(args[0], k);
    } else {
      var more := EncodeArgs(args[1..])[..k - |first|];
      assert EncodeArgs(args)[..k] == first + more;
      ArgReads(args[0], more);
      CutArgs(args[1..], k - |first|, argv + [args[0]]);
    }
  }

  // ----- items -----

  /** A whole item is read back, and leaves the text after it. */
  lemma ItemReads(item: Item, rest: string)
    requires Writable(item)
    ensures ParseItem(EncodeItem(item) + rest)
            == match item case Cmd(argv) => Got(argv, rest) case Stamp(_) => Annotation(rest)
  {
    match item
    case Cmd(argv) =>
      CommandReads(argv, rest);
    case Stamp(note) =>
      StampReads(note, rest);
  }

  lemma CommandReads(argv: Command, rest: string)
    requires Writable(Cmd(argv))
    ensures ParseItem(EncodeCommand(argv) + rest) == Got(argv, rest)
  {
    hide Digits, Atoi, LineLength, EncodeArgs, ParseArgs;
    var head, tail := CountLine('*', |argv|), EncodeArgs(argv) + rest;
    assert EncodeCommand(argv) + rest == head + tail;
    CountLineReads('*', |argv|, tail);
    ArgsRead(argv, rest, []);
    assert [] + argv == argv;
  }

  lemma StampReads(note: string, rest: string)
    requires Writable(Stamp(note))
    ensures ParseItem(EncodeItem(Stamp(note)) + rest) == Annotation(rest)
  {
    hide LineLength;
    var body := "#" + note + ['\r'];
    var text := EncodeItem(Stamp(note)) + rest;
    assert text == body + ['\n'] + rest && text[0] == '#' && '\n' !in body;
    LineLengthIs(body, rest, LINE_ROOM);
    assert text[|body| + 1..] == rest;
  }

  /** A cut command is a short read, never a format error; a cut annotation is skipped. */
  lemma CutItem(item: Item, k: nat)
    requires Writable(item) && 0 < k < |EncodeItem(item)|
    ensures ParseItem(EncodeItem(item)[..k]) == match item case Cmd(_) => ShortRead case Stamp(_) => Annotation([])
  {
    match item
    case Cmd(argv) =>
      CutCommand(argv, k);
    case Stamp(note) =>
      CutStamp(note, k);
  }

  lemma CutCommand(argv: Command, k: nat)
    requires Writable(Cmd(argv)) && 0 < k < |EncodeCommand(argv)|
    ensures ParseItem(EncodeCommand(argv)[..k]) == ShortRead
  {
    hide Digits, Atoi, LineLength, EncodeArgs, ParseArgs;
    var head := CountLine('*', |argv|);
    var text := EncodeCommand(argv)[..k];
    assert EncodeCommand(argv) == head + EncodeArgs(argv);
    if k < |head| {
      assert text == head[..k];
      CutLineReads('*', |argv|, k);
      assert text[k..] == [];
      if k > 1 {
        NoArgs(Atoi(text[1..k]));
      }
    } else {
      var tail := EncodeArgs(argv)[..k - |head|];
      assert text == head + tail && text[0] == '*';
      CountLineReads('*', |argv|, tail);
      CutArgs(argv, k - |head|, []);
    }
  }

  lemma NoArgs(count: nat)
    requires count > 0
    ensures ParseArgs([], count, []) == ShortRead
  {
  }

  lemma CutStamp(note: string, k: nat)
    requires Writable(Stamp(note)) && 0 < k < |EncodeItem(Stamp(note))|
    ensures ParseItem(EncodeItem(Stamp(note))[..k]) == Annotation([])
  {
    hide LineLength;
    var text := EncodeItem(Stamp(note))[..k];
    assert text == ("#" + note + ['\r'])[..k] && '\n' !in text && text[0] == '#';
    LastLineLength(text, LINE_ROOM);
    assert text[k..] == [];
  }

  // ----- the log -----

  /** The items that lie wholly inside the first `n` bytes. */
  function Whole(items: seq<Item>, n: nat): seq<Item>
    decreases |items|
  {
    if items == [] || n < |EncodeItem(items[0])| then []
    else [items[0]] + Whole(items[1..], n - |EncodeItem(items[0])|)
  }

  /** The `n` bytes end between two items, or inside an annotation. */
  predicate EndsCleanly(items: seq<Item>, n: nat)
    decreases |items|
  {
    if items == [] then true
    else if n < |EncodeItem(items[0])| then n == 0 || items[0].Stamp?
    else EndsCleanly(items[1..], n - |EncodeItem(items[0])|)
  }

  /** Every item can be written, and every command is in the command table. */
  ghost predicate Loadable(items: seq<Item>, lookup: Lookup) {
    forall i :: 0 <= i < |items| ==> Writable(items[i]) && (items[i].Cmd? ==> lookup(items[i].argv).Some?)
  }

  /** The loader after reading one item. */
  function RunItem(l: Loader, item: Item, lookup: Lookup): Loader
    requires item.Cmd? ==> lookup(item.argv).Some?
  {
    match item
    case Stamp(_) => Skipped(l, |EncodeItem(item)|)
    case Cmd(argv) => Ran(l, argv, lookup(argv).value, |EncodeItem(item)|)
  }

  /** The loader after reading all of them, transactions included. */
  function RunItems(l: Loader, items: seq<Item>, lookup: Lookup): Loader
    requires Loadable(items, lookup)
    decreases |items|
  {
    if items == [] then l else RunItems(RunItem(l, items[0], lookup), items[1..], lookup)
  }

  lemma {:induction false} WholeLoadable(items: seq<Item>, n: nat, lookup: Lookup)
    requires Loadable(items, lookup)
    ensures Loadable(Whole(items, n), lookup)
    decreases |items|
  {
    hide Writable, EncodeItem;
    if items != [] && n >= |EncodeItem(items[0])| {
      WholeLoadable(items[1..], n - |EncodeItem(items[0])|, lookup);
    }
  }

  /** How loading ends after the whole items, given whether the bytes end between two items. */
  function Ending(l: Loader, cleanly: bool): (Status, Loader) {
    if cleanly then AtEof(l) else (ShortEnd, l)
  }

  /** The same outcome, wherever reading stopped. */
  predicate SameOutcome(a: (Status, Loader), b: (Status, Loader)) {
    a.0 == b.0 && a.1 == b.1.(pos := a.1.pos)
  }

  /** Loading the first `n` bytes executes exactly the commands wholly inside them, those of an
      unclosed MULTI excepted, and never ends in a format error; the file is cut behind the last
      whole command, or before the MULTI if it ends between two commands. */
  lemma {:induction false} LoadPrefix(items: seq<Item>, n: nat, l: Loader, lookup: Lookup)
    requires Loadable(items, lookup) && n <= |Encode(items)|
    ensures Loadable(Whole(items, n), lookup)
    ensures SameOutcome(LoadFrom(Encode(items)[..n], l, lookup),
                        Ending(RunItems(l, Whole(items, n), lookup), EndsCleanly(items, n)))
    decreases |items|
  {
    hide ParseItem, EncodeItem, RunOne, Writable;
    WholeLoadable(items, n, lookup);
    var text := Encode(items)[..n];
    if n == 0 || items == [] {
      assert text == [];
      ParseNothing();
      NothingWhole(items);
    } else {
      var head := EncodeItem(items[0]);
      if n < |head| {
        assert text == head[..n];
        CutItem(items[0], n);
        ParseNothing();
        if items[0].Stamp? {
          assert LoadFrom(text, l, lookup) == AtEof(Skipped(l, n));
        }
      } else {
        var rest := Encode(items[1..])[..n - |head|];
        assert text == head + rest;
        ItemReads(items[0], rest);
        assert Whole(items, n)[1..] == Whole(items[1..], n - |head|);
        LoadPrefix(items[1..], n - |head|, RunItem(l, items[0], lookup), lookup);
      }
    }
  }

  lemma ParseNothing()
    ensures ParseItem([]) == AtEnd
  {
  }

  lemma NothingWhole(items: seq<Item>)
    ensures Whole(items, 0) == [] && EndsCleanly(items, 0)
  {
    if items != [] {
      assert |EncodeItem(items[0])| > 0;
    }
  }

  /** The round trip: the whole log runs every command, in order. */
  lemma LoadWhole(items: seq<Item>, lookup: Lookup)
    requires Loadable(items, lookup)
    ensures SameOutcome(LoadFrom(Encode(items), START, lookup), AtEof(RunItems(START, items, lookup)))
  {
    hide LoadFrom, RunItems;
    WholeIsAll(items);
    LoadPrefix(items, |Encode(items)|, START, lookup);
    assert Encode(items)[..|Encode(items)|] == Encode(items);
  }

  /** A command that is not in the table ends the loading, whatever follows it: those before it
      have run, and the file stays as it is. */
  lemma {:induction false} LoadUnknown(items: seq<Item>, argv: Command, rest: string, l: Loader, lookup: Lookup)
    requires Loadable(items, lookup) && Writable(Cmd(argv)) && lookup(argv).None?
    ensures var text := Encode(items) + (EncodeItem(Cmd(argv)) + rest);
            && LoadFrom(text, l, lookup) == (UnknownCommand, RunItems(l, items, lookup))
            && Afterwards(text, UnknownCommand, RunItems(l, items, lookup)) == text
    decreases |items|
  {
    hide ParseItem, EncodeItem, RunOne, Writable;
    var last := EncodeItem(Cmd(argv)) + rest;
    if items == [] {
      assert Encode(items) + last == last;
      ItemReads(Cmd(argv), rest);
    } else {
      var more := Encode(items[1..]) + last;
      assert Encode(items) + last == EncodeItem(items[0]) + more;
      ItemReads(items[0], more);
      LoadUnknown(items[1..], argv, rest, RunItem(l, items[0], lookup), lookup);
    }
  }

  lemma {:induction false} WholeIsAll(items: seq<Item>)
    ensures Whole(items, |Encode(items)|) == items && EndsCleanly(items, |Encode(items)|)
    decreases |items|
  {
    hide EncodeItem;
    if items != [] {
      WholeIsAll(items[1..]);
    }
  }

  lemma {:induction false} WholeIsPrefix(items: seq<Item>, n: nat)
    ensures Whole(items, n) <= items
    decreases |items|
  {
    hide EncodeItem;
    if items != [] && n >= |EncodeItem(items[0])| {
      WholeIsPrefix(items[1..], n - |EncodeItem(items[0])|);
    }
  }

  lemma {:induction false} EncodeConcat(a: seq<Item>, b: seq<Item>)
    ensures Encode(a + b) == Encode(a) + Encode(b)
    decreases |a|
  {
    hide EncodeItem;
    if a == [] {
      assert a + b == b && [] + Encode(b) == Encode(b);
    } else {
      assert (a + b)[1..] == a[1..] + b;
      EncodeConcat(a[1..], b);
      assert EncodeItem(a[0]) + (Encode(a[1..]) + Encode(b)) == EncodeItem(a[0]) + Encode(a[1..]) + Encode(b);
    }
  }

  lemma {:induction false} RunSnoc(l: Loader, items: seq<Item>, item: Item, lookup: Lookup)
    requires Loadable(items + [item], lookup)
    ensures Loadable(items, lookup) && (item.Cmd? ==> lookup(item.argv).Some?)
    ensures RunItems(l, items + [item], lookup) == RunItem(RunItems(l, items, lookup), item, lookup)
    decreases |items|
  {
    hide Writable, EncodeItem, RunItem;
    var all := items + [item];
    assert all[|items|] == item;
    forall i | 0 <= i < |items|
      ensures all[i] == items[i]
    {
    }
    if items == [] {
      assert all[1..] == [];
    } else {
      assert all[1..] == items[1..] + [item];
      RunSnoc(RunItem(l, items[0], lookup), items[1..], item, lookup);
    }
  }
}
