/** aof.c: the bytes of the append-only log, and the loader that reads them back.

    A byte is a character.  A file is read with fgets and fread; reaching its end in the
    middle of a command is a short read, everything else that does not fit is a format error.
  */
module AofCodec {
  import opened Options
  import opened Decimal
  import opened Stdio

  type Command = seq<string>

  /** What the server appends: a command, or an annotation. */
  datatype Item = Cmd(argv: Command) | Stamp(note: string)

  // ----- writing -----

  const CRLF := "\r\n"

  function EncodeArg(arg: string): string {
    "$" + Digits(|arg|) + CRLF + arg + CRLF
  }

  function EncodeArgs(args: seq<string>): string {
    if args == [] then [] else EncodeArg(args[0]) + EncodeArgs(args[1..])
  }

  function EncodeCommand(argv: Command): string {
    "*" + Digits(|argv|) + CRLF + EncodeArgs(argv)
  }

  function EncodeItem(item: Item): string {
    match item
    case Cmd(argv) => EncodeCommand(argv)
    case Stamp(note) => "#" + note + CRLF
  }

  function Encode(items: seq<Item>): string {
    if items == [] then [] else EncodeItem(items[0]) + Encode(items[1..])
  }

  lemma {:induction false} EncodeArgsSnoc(args: seq<string>, a: string)
    ensures EncodeArgs(args + [a]) == EncodeArgs(args) + EncodeArg(a)
    decreases |args|
  {
    hide EncodeArg;
    if args == [] {
      assert args + [a] == [a] && [a][1..] == [];
      assert EncodeArg(a) + [] == EncodeArg(a) && [] + EncodeArg(a) == EncodeArg(a);
    } else {
      assert (args + [a])[1..] == args[1..] + [a];
      EncodeArgsSnoc(args[1..], a);
      assert EncodeArg(args[0]) + (EncodeArgs(args[1..]) + EncodeArg(a))
             == EncodeArg(args[0]) + EncodeArgs(args[1..]) + EncodeArg(a);
    }
  }

  /** One turn of the loop below. */
  lemma CatArg(head: string, argv: Command, j: nat)
    requires j < |argv|
    ensures head + EncodeArgs(argv[..j]) + ("$" + Digits(|argv[j]|) + CRLF) + argv[j] + CRLF
            == head + EncodeArgs(argv[..j + 1])
  {
    hide EncodeArgs, Digits;
    assert argv[..j + 1] == argv[..j] + [argv[j]];
    EncodeArgsSnoc(argv[..j], argv[j]);
  }

  /** catAppendOnlyGenericCommand */
  method CatCommand(dst: string, argv: Command) returns (r: string)
    ensures r == dst + EncodeCommand(argv)
  {
    r := dst + ("*" + Digits(|argv|) + CRLF);
    ghost var head := r;
    var j := 0;
    assert argv[..0] == [] && r + [] == r;
    while j < |argv|
      invariant 0 <= j <= |argv|
      invariant r == head + EncodeArgs(argv[..j])
    {
      hide *;
      CatArg(head, argv, j);
      r := r + ("$" + Digits(|argv[j]|) + CRLF);
      r := r + argv[j];
      r := r + CRLF;
      j := j + 1;
    }
    assert argv[..j] == argv;
  }

  // ----- reading one item -----

  const LINE_ROOM := 1023  // AOF_ANNOTATION_LINE_MAX_LEN less the terminator

  datatype Parsed =
    | AtEnd                                  // nothing left
    | Annotation(rest: string)
    | Got(argv: Command, rest: string)
    | ShortRead                              // the file ends inside a command
    | ReadFailed                             // an error before the end of the file
    | Malformed
    | BadLength                              // a negative argument length cannot be allocated

  /** One argument, or why it cannot be read. */
  datatype Arg = Arg(value: string, rest: string) | Stop(why: Parsed)

  function ParseArg(text: string): (a: Arg)
    ensures a.Stop? ==> a.why in {ShortRead, Malformed, BadLength}
    ensures a.Arg? ==> |a.rest| < |text|
  {
    if text == [] then Stop(ShortRead)
    else
      var n := LineLength(text, LINE_ROOM);
      if text[0] != '$' then Stop(Malformed)
      else
        var len, data := Atoi(text[1..n]), text[n..];
        if len < 0 then Stop(BadLength)
        else if |data| < len + 2 then Stop(ShortRead)
        else Arg(data[..len], data[len + 2..])
  }

  /** `count` more arguments. */
  function ParseArgs(text: string, count: nat, argv: Command): (p: Parsed)
    ensures !p.Annotation? && !p.AtEnd? && (p.Got? ==> |p.rest| <= |text|)
    decreases count
  {
    if count == 0 then Got(argv, text)
    else match ParseArg(text)
         case Stop(why) => why
         case Arg(value, rest) => ParseArgs(rest, count - 1, argv + [value])
  }

  /** A line of `n` characters for which fgets ran into the end of the file. */
  predicate HitsEnd(text: string, n: nat)
    requires 0 < n <= |text|
  {
    n == |text| && n < LINE_ROOM && text[n - 1] != '\n'
  }

  function ParseItem(text: string): (p: Parsed)
    ensures p.Got? || p.Annotation? ==> |p.rest| < |text|
  {
    if text == [] then AtEnd
    else
      var n := LineLength(text, LINE_ROOM);
      if text[0] == '#' then Annotation(text[n..])
      else if text[0] != '*' then Malformed
      else if n == 1 || text[1] == NUL then if HitsEnd(text, n) then ShortRead else ReadFailed
      else
        var argc := Atoi(text[1..n]);
        if argc < 1 then Malformed else ParseArgs(text[n..], argc, [])
  }

  // ----- running the commands -----

  datatype Kind = Multi | ExecMulti | Other

  /** The commands executed so far, and the queue of an open MULTI. */
  datatype Client = Client(done: seq<Command>, queue: Option<seq<Command>>)

  const FRESH := Client([], None)

  function RunOne(c: Client, argv: Command, kind: Kind): Client {
    if c.queue.Some? then
      if kind == ExecMulti then Client(c.done + c.queue.value, None)
      else c.(queue := Some(c.queue.value + [argv]))
    else match kind
         case Multi => c.(queue := Some([]))
         case ExecMulti => c
         case Other => c.(done := c.done + [argv])
  }

  type Lookup = Command -> Option<Kind>

  /** The loader: its client, how far it has read, the end of the last command, and the end of
      the last command before a MULTI. */
  datatype Loader = Loader(client: Client, pos: nat, valid: nat, beforeMulti: nat)

  const START := Loader(FRESH, 0, 0, 0)

  /** A command of `used` bytes has been read and run. */
  function Ran(l: Loader, argv: Command, kind: Kind, used: nat): Loader {
    Loader(RunOne(l.client, argv, kind), l.pos + used, l.pos + used, if kind == Multi then l.valid else l.beforeMulti)
  }

  function Skipped(l: Loader, used: nat): Loader {
    l.(pos := l.pos + used)
  }

  /** `ShortEnd`: the file ends inside a command.  `OpenMulti`: it ends inside a transaction. */
  datatype Status = Loaded | ShortEnd | OpenMulti | ReadError | FormatError | UnknownCommand | OutOfMemory

  /** At the end of the file: the commands of an open MULTI are given up. */
  function AtEof(l: Loader): (Status, Loader) {
    if l.client.queue.Some? then (OpenMulti, l.(valid := l.beforeMulti)) else (Loaded, l)
  }

  /** The loop of loadSingleAppendOnlyFile. */
  function LoadFrom(text: string, l: Loader, lookup: Lookup): (Status, Loader)
    decreases |text|
  {
    match ParseItem(text)
    case AtEnd => AtEof(l)
    case ShortRead => (ShortEnd, l)
    case ReadFailed => (ReadError, l)
    case Malformed => (FormatError, l)
    case BadLength => (OutOfMemory, l)
    case Annotation(rest) => LoadFrom(rest, Skipped(l, |text| - |rest|), lookup)
    case Got(argv, rest) =>
      var kind := lookup(argv);
      if kind.None? then (UnknownCommand, l)
      else LoadFrom(rest, Ran(l, argv, kind.value, |text| - |rest|), lookup)
  }

  /** The file after loading: an unfinished one is truncated behind the last valid command. */
  function Afterwards(text: string, status: Status, l: Loader): string {
    if status in {ShortEnd, OpenMulti} && l.valid <= |text| then text[..l.valid] else text
  }

  /** The three reads of one argument: its length line, its bytes, and the line end. */
  method ReadArg(text: string, at: nat) returns (a: Arg, next: nat)
    requires at <= |text|
    ensures a == ParseArg(text[at..])
    ensures a.Arg? ==> next <= |text| && a.rest == text[next..]
  {
    hide LineLength, Atoi;
    next := at;
    if at == |text| {
      return Stop(ShortRead), next;
    }
    if text[at] != '$' {
      return Stop(Malformed), next;
    }
    var n := LineLength(text[at..], LINE_ROOM);
    var len := Atoi(text[at..][1..n]);
    assert text[at..][n..] == text[at + n..];
    next := at + n;
    if len < 0 {
      return Stop(BadLength), next;
    }
    if |text| - next < len + 2 {
      return Stop(ShortRead), next;
    }
    assert text[next..][..len] == text[next..next + len] && text[next..][len + 2..] == text[next + len + 2..];
    a := Arg(text[next..next + len], text[next + len + 2..]);
    next := next + len + 2;
  }

  /** The argument loop of loadSingleAppendOnlyFile. */
  method ReadArgs(text: string, from: nat, argc: nat) returns (p: Parsed, next: nat)
    requires from <= |text|
    ensures p == ParseArgs(text[from..], argc, [])
    ensures p.Got? ==> next <= |text| && p.rest == text[next..]
  {
    hide ParseArg;
    var argv: Command := [];
    next := from;
    var j := 0;
    while j < argc
      invariant 0 <= j <= argc && next <= |text|
      invariant ParseArgs(text[next..], argc - j, argv) == ParseArgs(text[from..], argc, [])
    {
      var a, after := ReadArg(text, next);
      if a.Stop? {
        return a.why, next;
      }
      argv := argv + [a.value];
      next := after;
      j := j + 1;
    }
    p := Got(argv, text[next..]);
  }

  /** One turn of the main loop: a line, and the arguments of a command. */
  method ReadItem(text: string, at: nat) returns (p: Parsed, next: nat)
    requires at <= |text|
    ensures p == ParseItem(text[at..])
    ensures p.Got? || p.Annotation? ==> at <= next <= |text| && p.rest == text[next..]
  {
    hide LineLength, Atoi, ParseArgs;
    if at == |text| {
      return AtEnd, at;
    }
    var n := LineLength(text[at..], LINE_ROOM);
    next := at + n;
    assert text[at..][n..] == text[next..];
    if text[at] == '#' {
      return Annotation(text[next..]), next;
    }
    if text[at] != '*' {
      return Malformed, next;
    }
    if n == 1 || text[at + 1] == NUL {
      return if next == |text| && n < LINE_ROOM && text[next - 1] != '\n' then ShortRead else ReadFailed, next;
    }
    var argc := Atoi(text[at..][1..n]);
    if argc < 1 {
      return Malformed, next;
    }
    p, next := ReadArgs(text, next, argc);
  }

  /** loadSingleAppendOnlyFile: the main loop, and the truncation of an unfinished file. */
  method LoadFile(text: string, lookup: Lookup) returns (status: Status, loader: Loader, file: string)
    ensures (status, loader) == LoadFrom(text, START, lookup)
    ensures file == Afterwards(text, status, loader)
  {
    hide ParseItem, RunOne;
    loader := START;
    assert text[0..] == text;
    var at := 0;
    while true
      invariant 0 <= at <= |text|
      invariant LoadFrom(text[at..], loader, lookup) == LoadFrom(text, START, lookup)
      decreases |text| - at
    {
      var p, next := ReadItem(text, at);
      match p {
        case AtEnd =>
          status := Loaded;
          if loader.client.queue.Some? {
            status := OpenMulti;
            loader := loader.(valid := loader.beforeMulti);
          }
          break;
        case ShortRead => status := ShortEnd; break;
        case ReadFailed => status := ReadError; break;
        case Malformed => status := FormatError; break;
        case BadLength => status := OutOfMemory; break;
        case Annotation(_) =>
          loader := Skipped(loader, next - at);
          at := next;
        case Got(argv, _) =>
          var kind := lookup(argv);
          if kind.None? {
            status := UnknownCommand;
            break;
          }
          loader := Ran(loader, argv, kind.value, next - at);
          at := next;
      }
    }
    file := Afterwards(text, status, loader);
  }
}
