/** aof.c: what the server appends to a log file, and what loading such a file does, wherever
    it is torn.

    A log is a list of entries: annotations, the SELECTs that feedAppendOnlyFile adds, the
    MULTI and EXEC around a propagated transaction, and the commands themselves.
  */
module AofLog {
  import opened Options
  import opened Letters
  import opened Decimal
  import opened Stdio
  import opened AofCodec
  import opened AofCodecProofs

  /** A command performed in a database. */
  datatype Write = Write(db: nat, cmd: Command)

  datatype Entry = Mark(note: string) | Select(db: nat) | Exec(cmd: Command) | Begin | End

  function SelectCommand(db: nat): Command {
    ["SELECT", Digits(db)]
  }

  function ItemOf(e: Entry): Item {
    match e
    case Mark(note) => Stamp(note)
    case Select(db) => Cmd(SelectCommand(db))
    case Exec(cmd) => Cmd(cmd)
    case Begin => Cmd(["MULTI"])
    case End => Cmd(["EXEC"])
  }

  function ItemsOf(log: seq<Entry>): (items: seq<Item>)
    ensures |items| == |log| && forall i :: 0 <= i < |log| ==> items[i] == ItemOf(log[i])
  {
    seq(|log|, i requires 0 <= i < |log| => ItemOf(log[i]))
  }

  /** The bytes of a log. */
  function Enc(log: seq<Entry>): string {
    Encode(ItemsOf(log))
  }

  /** The command table, as far as the loader cares. */
  function KindOf(cmd: Command): Option<Kind> {
    if cmd == [] then None
    else if Lower(cmd[0]) == "multi" then Some(Multi)
    else if Lower(cmd[0]) == "exec" then Some(ExecMulti)
    else Some(Other)
  }

  predicate IsSelect(cmd: Command) {
    |cmd| == 2 && Lower(cmd[0]) == "select"
  }

  /** Database numbers are C integers: at most ten digits. */
  predicate ValidEntry(e: Entry) {
    && Writable(ItemOf(e))
    && (e.Exec? ==> KindOf(e.cmd) == Some(Other) && !IsSelect(e.cmd))
    && (e.Select? ==> |Digits(e.db)| <= 10)
  }

  // ----- logs, from their last entry -----

  function Front(log: seq<Entry>): seq<Entry>
    requires log != []
  {
    log[..|log| - 1]
  }

  function Last(log: seq<Entry>): Entry
    requires log != []
  {
    log[|log| - 1]
  }

  /** The log ends inside a transaction. */
  predicate InMulti(log: seq<Entry>)
    decreases |log|
  {
    log != [] && (Last(log).Begin? || (!Last(log).End? && InMulti(Front(log))))
  }

  /** Transactions are not nested, and every entry can be written. */
  predicate WellFed(log: seq<Entry>)
    decreases |log|
  {
    log != [] ==> WellFed(Front(log)) && ValidEntry(Last(log)) && (Last(log).Begin? ==> !InMulti(Front(log)))
  }

  /** The log without its open transaction. */
  function Settled(log: seq<Entry>): seq<Entry>
    decreases |log|
  {
    if !InMulti(log) then log else Settled(Front(log))
  }

  /** The log without the annotations at its end. */
  function Trim(log: seq<Entry>): seq<Entry>
    decreases |log|
  {
    if log != [] && Last(log).Mark? then Trim(Front(log)) else log
  }

  function DbAfter(log: seq<Entry>): nat
    decreases |log|
  {
    if log == [] then 0 else if Last(log).Select? then Last(log).db else DbAfter(Front(log))
  }

  /** The writes that a fresh client performs. */
  function Replay(log: seq<Entry>): seq<Write>
    decreases |log|
  {
    if log == [] then []
    else Replay(Front(log)) + if Last(log).Exec? then [Write(DbAfter(Front(log)), Last(log).cmd)] else []
  }

  /** Unfolding the functions for one entry more. */
  lemma Snoc(log: seq<Entry>, e: Entry)
    ensures log + [e] != [] && Front(log + [e]) == log && Last(log + [e]) == e
    ensures InMulti(log + [e]) <==> e.Begin? || (!e.End? && InMulti(log))
    ensures WellFed(log + [e]) <==> WellFed(log) && ValidEntry(e) && (e.Begin? ==> !InMulti(log))
    ensures DbAfter(log + [e]) == if e.Select? then e.db else DbAfter(log)
    ensures Replay(log + [e]) == Replay(log) + if e.Exec? then [Write(DbAfter(log), e.cmd)] else []
    ensures Enc(log + [e]) == Enc(log) + EncodeItem(ItemOf(e))
  {
    hide ValidEntry, Enc;
    assert Front(log + [e]) == log;
    EncSnoc(log, e);
  }

  lemma EncSnoc(log: seq<Entry>, e: Entry)
    ensures Enc(log + [e]) == Enc(log) + EncodeItem(ItemOf(e))
  {
    hide Encode, EncodeItem;
    assert ItemsOf(log + [e]) == ItemsOf(log) + [ItemOf(e)];
    EncodeConcat(ItemsOf(log), [ItemOf(e)]);
    EncodeOne(ItemOf(e));
  }

  lemma EncodeOne(item: Item)
    ensures Encode([item]) == EncodeItem(item)
  {
    hide EncodeItem;
    assert [item][1..] == [];
    assert EncodeItem(item) + [] == EncodeItem(item);
  }

  lemma SplitLast(log: seq<Entry>)
    requires log != []
    ensures log == Front(log) + [Last(log)]
  {
  }

  lemma EncConcat(a: seq<Entry>, b: seq<Entry>)
    ensures Enc(a + b) == Enc(a) + Enc(b)
  {
    hide Encode;
    assert ItemsOf(a + b) == ItemsOf(a) + ItemsOf(b);
    EncodeConcat(ItemsOf(a), ItemsOf(b));
  }

  lemma EncPrefix(log: seq<Entry>, k: nat)
    requires k <= |log|
    ensures |Enc(log[..k])| <= |Enc(log)| && Enc(log[..k]) == Enc(log)[..|Enc(log[..k])|]
  {
    hide Enc;
    EncConcat(log[..k], log[k..]);
    assert log[..k] + log[k..] == log;
  }

  lemma EncMonotone(log: seq<Entry>, i: nat, j: nat)
    requires i <= j <= |log|
    ensures |Enc(log[..i])| <= |Enc(log[..j])|
  {
    hide Enc;
    EncPrefix(log[..j], i);
    assert log[..j][..i] == log[..i];
  }

  lemma {:induction false} WellFedPrefix(log: seq<Entry>, k: nat)
    requires WellFed(log) && k <= |log|
    ensures WellFed(log[..k])
    decreases |log|
  {
    hide ValidEntry;
    if k < |log| {
      WellFedPrefix(Front(log), k);
      assert Front(log)[..k] == log[..k];
    } else {
      assert log[..k] == log;
    }
  }

  lemma {:induction false} Prefixes(log: seq<Entry>)
    ensures |Settled(log)| <= |log| && Settled(log) == log[..|Settled(log)|] && !InMulti(Settled(log))
    ensures |Trim(log)| <= |log| && Trim(log) == log[..|Trim(log)|]
    ensures Replay(Trim(log)) == Replay(log) && InMulti(Trim(log)) == InMulti(log)
    decreases |log|
  {
    if log != [] {
      Prefixes(Front(log));
      assert Front(log)[..|Settled(Front(log))|] == log[..|Settled(Front(log))|];
      assert Front(log)[..|Trim(Front(log))|] == log[..|Trim(Front(log))|];
    }
    assert log[..|log|] == log;
  }

  lemma {:induction false} AllValid(log: seq<Entry>)
    requires WellFed(log)
    ensures forall i :: 0 <= i < |log| ==> ValidEntry(log[i])
    decreases |log|
  {
    hide ValidEntry;
    if log != [] {
      AllValid(Front(log));
      assert forall i :: 0 <= i < |Front(log)| ==> log[i] == Front(log)[i];
    }
  }

  lemma FedLoadable(log: seq<Entry>)
    requires WellFed(log)
    ensures Loadable(ItemsOf(log), KindOf)
  {
    hide WellFed, Writable;
    AllValid(log);
    forall i | 0 <= i < |log|
      ensures var item := ItemsOf(log)[i]; Writable(item) && (item.Cmd? ==> KindOf(item.argv).Some?)
    {
      assert ValidEntry(log[i]);
    }
  }

  // ----- running a log -----

  /** The commands of a log, without the brackets of its transactions. */
  function Cmds(log: seq<Entry>): seq<Command>
    decreases |log|
  {
    if log == [] then []
    else Cmds(Front(log)) + if Last(log).Exec? || Last(log).Select? then [ItemOf(Last(log)).argv] else []
  }

  /** The commands of the open transaction. */
  function Queue(log: seq<Entry>): seq<Command>
    decreases |log|
  {
    if log == [] || Last(log).Begin? then []
    else Queue(Front(log)) + if Last(log).Exec? || Last(log).Select? then [ItemOf(Last(log)).argv] else []
  }

  lemma {:induction false} QueueIsRest(log: seq<Entry>)
    requires WellFed(log) && InMulti(log)
    ensures Cmds(log) == Cmds(Settled(log)) + Queue(log)
    decreases |log|
  {
    hide ValidEntry;
    if !Last(log).Begin? {
      QueueIsRest(Front(log));
    }
  }

  function ClientOf(log: seq<Entry>): Client {
    Client(Cmds(Settled(log)), if InMulti(log) then Some(Queue(log)) else None)
  }

  lemma KindsOfBrackets()
    ensures KindOf(["MULTI"]) == Some(Multi) && KindOf(["EXEC"]) == Some(ExecMulti)
    ensures Lower("SELECT") == "select"
    ensures forall db: nat :: KindOf(SelectCommand(db)) == Some(Other) && IsSelect(SelectCommand(db))
  {
    assert Lower("MULTI") == "multi" && Lower("EXEC") == "exec" && Lower("SELECT") == "select";
    forall db: nat
      ensures KindOf(SelectCommand(db)) == Some(Other)
    {
      assert Lower(SelectCommand(db)[0]) == "select";
    }
  }

  lemma SettledAsIs(log: seq<Entry>)
    ensures !InMulti(log) ==> Settled(log) == log
  {
  }

  /** One entry more, run by the loader's client. */
  lemma RunEntry(log: seq<Entry>, e: Entry)
    requires WellFed(log + [e]) && !e.Mark?
    ensures var kind := KindOf(ItemOf(e).argv);
            kind.Some? && RunOne(ClientOf(log), ItemOf(e).argv, kind.value) == ClientOf(log + [e])
    ensures e.Begin? <==> KindOf(ItemOf(e).argv) == Some(Multi)
  {
    hide WellFed, Writable, Enc, Replay, DbAfter, InMulti, Cmds, Queue, Settled, Trim, Lower;
    Snoc(log, e);
    Unfold(log + [e]);
    KindsOfBrackets();
    SettledAsIs(log);
    if e.End? && InMulti(log) {
      QueueIsRest(log);
    }
  }

  function LoaderOf(log: seq<Entry>, l: Loader): Loader {
    l.(client := ClientOf(log), pos := |Enc(log)|, valid := |Enc(Trim(log))|)
  }

  /** The loader behind a whole log. */
  lemma {:induction false} RunLog(log: seq<Entry>)
    requires WellFed(log)
    ensures Loadable(ItemsOf(log), KindOf)
    ensures var l := RunItems(START, ItemsOf(log), KindOf);
            l == LoaderOf(log, l) && (InMulti(log) ==> l.beforeMulti == |Enc(Trim(Settled(log)))|)
    decreases |log|
  {
    hide ValidEntry, EncodeItem, Encode, RunOne, KindOf, RunItems, Cmds, Queue;
    FedLoadable(log);
    if log == [] {
      RunNothing();
      assert Enc([]) == [];
    } else {
      var pre, e := Front(log), Last(log);
      SplitLast(log);
      Snoc(pre, e);
      RunLog(pre);
      assert ItemsOf(log) == ItemsOf(pre) + [ItemOf(e)];
      RunSnoc(START, ItemsOf(pre), ItemOf(e), KindOf);
      if e.Mark? {
        MarkRuns(pre, e);
      } else {
        RunEntry(pre, e);
      }
    }
  }

  lemma RunNothing()
    ensures RunItems(START, [], KindOf) == START && ClientOf([]) == FRESH && Enc([]) == []
  {
  }

  lemma MarkRuns(log: seq<Entry>, e: Entry)
    requires e.Mark?
    ensures ClientOf(log + [e]) == ClientOf(log) && Trim(log + [e]) == Trim(log)
  {
    hide WellFed, Enc, Replay, DbAfter, InMulti, Cmds, Queue, Settled, Trim;
    Snoc(log, e);
    Unfold(log + [e]);
    SettledAsIs(log);
    assert Cmds(log) + [] == Cmds(log) && Queue(log) + [] == Queue(log);
  }

  lemma Unfold(log: seq<Entry>)
    requires log != []
    ensures var pre, e := Front(log), Last(log);
            var more := if e.Exec? || e.Select? then [ItemOf(e).argv] else [];
            && Cmds(log) == Cmds(pre) + more
            && Queue(log) == (if e.Begin? then [] else Queue(pre) + more)
            && Settled(log) == (if InMulti(log) then Settled(pre) else log)
            && Trim(log) == (if e.Mark? then Trim(pre) else log)
  {
  }

  // ----- the writes of the executed commands -----

  function DbOf(cmds: seq<Command>): int
    decreases |cmds|
  {
    if cmds == [] then 0
    else
      var cmd := cmds[|cmds| - 1];
      if IsSelect(cmd) then Atoi(cmd[1]) else DbOf(cmds[..|cmds| - 1])
  }

  /** The writes of a list of executed commands; SELECT only changes the database. */
  function Interpret(cmds: seq<Command>): seq<Write>
    decreases |cmds|
  {
    if cmds == [] then []
    else
      var pre, cmd := cmds[..|cmds| - 1], cmds[|cmds| - 1];
      Interpret(pre) + if IsSelect(cmd) || DbOf(pre) < 0 then [] else [Write(DbOf(pre), cmd)]
  }

  lemma InterpretSnoc(cmds: seq<Command>, cmd: Command)
    ensures DbOf(cmds + [cmd]) == if IsSelect(cmd) then Atoi(cmd[1]) else DbOf(cmds)
    ensures Interpret(cmds + [cmd])
            == Interpret(cmds) + if IsSelect(cmd) || DbOf(cmds) < 0 then [] else [Write(DbOf(cmds), cmd)]
  {
    hide Atoi, Lower;
    assert (cmds + [cmd])[..|cmds|] == cmds;
  }

  lemma {:induction false} InterpretLog(log: seq<Entry>)
    requires WellFed(log)
    ensures Interpret(Cmds(log)) == Replay(log) && DbOf(Cmds(log)) == DbAfter(log)
    decreases |log|
  {
    hide Writable, Lower, Atoi, Interpret, DbOf, Queue, Settled, Trim, KindOf;
    if log == [] {
      InterpretNothing();
    } else {
      var pre, e := Front(log), Last(log);
      InterpretLog(pre);
      Unfold(log);
      KindsOfBrackets();
      if e.Select? {
        AtoiOfDec(e.db, []);
        assert Dec(e.db) + [] == Digits(e.db);
        InterpretSnoc(Cmds(pre), SelectCommand(e.db));
      } else if e.Exec? {
        InterpretSnoc(Cmds(pre), e.cmd);
      } else {
        assert Cmds(pre) + [] == Cmds(pre);
      }
    }
  }

  lemma InterpretNothing()
    ensures Interpret([]) == [] && DbOf([]) == 0 && Cmds([]) == []
  {
  }

  // ----- loading a torn log -----

  function LoadLog(bytes: string): (Status, Loader) {
    LoadFrom(bytes, START, KindOf)
  }

  /** The writes performed by loading a file. */
  function Performed(bytes: string): seq<Write> {
    Interpret(LoadLog(bytes).1.client.done)
  }

  /** The file after loading it. */
  function LoadedFile(bytes: string): string {
    Afterwards(bytes, LoadLog(bytes).0, LoadLog(bytes).1)
  }

  /** How many entries lie wholly inside the first `n` bytes. */
  function Count(log: seq<Entry>, n: nat): (k: nat)
    ensures k <= |log|
  {
    WholeIsPrefix(ItemsOf(log), n);
    |Whole(ItemsOf(log), n)|
  }

  /** The entries wholly inside the first `n` bytes. */
  function Complete(log: seq<Entry>, n: nat): seq<Entry> {
    log[..Count(log, n)]
  }

  lemma WholeComplete(log: seq<Entry>, n: nat)
    ensures Whole(ItemsOf(log), n) == ItemsOf(Complete(log, n))
  {
    hide Whole;
    WholeIsPrefix(ItemsOf(log), n);
  }

  /** The bytes end inside the entry after the complete ones, or right behind these. */
  lemma {:induction false} TornAt(items: seq<Item>, n: nat)
    requires n <= |Encode(items)|
    ensures var w := Whole(items, n);
            && w <= items && |Encode(w)| <= n
            && (|w| == |items| ==> n == |Encode(w)|)
            && (|w| < |items| ==> n < |Encode(w)| + |EncodeItem(items[|w|])|)
            && (EndsCleanly(items, n) <==> n == |Encode(w)| || items[|w|].Stamp?)
    decreases |items|
  {
    hide EncodeItem;
    if items != [] && n >= |EncodeItem(items[0])| {
      var rest := n - |EncodeItem(items[0])|;
      TornAt(items[1..], rest);
      assert Whole(items, n)[1..] == Whole(items[1..], rest);
    }
  }

  lemma CompleteEnds(log: seq<Entry>, n: nat)
    requires n <= |Enc(log)|
    ensures var es := Complete(log, n);
            && |Enc(es)| <= n && Enc(es) == Enc(log)[..|Enc(es)|]
            && (|es| == |log| ==> n == |Enc(es)|)
            && (|es| < |log| ==> n < |Enc(es)| + |EncodeItem(ItemOf(log[|es|]))|)
            && (EndsCleanly(ItemsOf(log), n) <==> n == |Enc(es)| || log[|es|].Mark?)
  {
    hide Encode, EncodeItem, Whole, EndsCleanly;
    TornAt(ItemsOf(log), n);
    WholeComplete(log, n);
    EncPrefix(log, Count(log, n));
  }

  /** Where the loader stops in a log torn after `n` bytes. */
  function TornStatus(log: seq<Entry>, n: nat): Status
    requires n <= |Enc(log)|
  {
    CompleteEnds(log, n);
    var es := Complete(log, n);
    if n > |Enc(es)| && !log[|es|].Mark? then ShortEnd else if InMulti(es) then OpenMulti else Loaded
  }

  /** The entries that stay in the file: all complete ones behind which nothing is torn, and no
      annotation behind the last command otherwise. */
  function KeptLog(log: seq<Entry>, n: nat): seq<Entry>
    requires n <= |Enc(log)|
  {
    var es := Complete(log, n);
    match TornStatus(log, n)
    case ShortEnd => Trim(es)
    case OpenMulti => Trim(Settled(es))
    case _ => es
  }

  /** Loading the first `n` bytes of a log performs the writes of the entries that are wholly
      there, each in its own database, except those of an open transaction. */
  lemma TornLogReplays(log: seq<Entry>, n: nat)
    requires WellFed(log) && n <= |Enc(log)|
    ensures var bytes := Enc(log)[..n];
            && LoadLog(bytes).0 == TornStatus(log, n)
            && LoadLog(bytes).1.client == ClientOf(Complete(log, n))
            && Performed(bytes) == Replay(Settled(Complete(log, n)))
            && LoadedFile(bytes) == if TornStatus(log, n).Loaded? then bytes else Enc(KeptLog(log, n))
  {
    hide LoadFrom, RunItems, Encode, Whole, EndsCleanly, WellFed, Interpret, Cmds, Replay, Settled, Trim, InMulti,
      Queue;
    var bytes, es := Enc(log)[..n], Complete(log, n);
    FedLoadable(log);
    LoadPrefix(ItemsOf(log), n, START, KindOf);
    WholeComplete(log, n);
    CompleteEnds(log, n);
    WellFedPrefix(log, |es|);
    RunLog(es);
    Prefixes(es);
    Prefixes(Settled(es));
    WellFedPrefix(es, |Settled(es)|);
    InterpretLog(Settled(es));
    PrefixBytes(log, es, n, Trim(es));
    assert Trim(Settled(es)) == es[..|Trim(Settled(es))|];
    PrefixBytes(log, es, n, Trim(Settled(es)));
  }

  lemma PrefixBytes(log: seq<Entry>, es: seq<Entry>, n: nat, kept: seq<Entry>)
    requires n <= |Enc(log)| && |Enc(es)| <= n && Enc(es) == Enc(log)[..|Enc(es)|]
    requires |kept| <= |es| && kept == es[..|kept|]
    ensures |Enc(kept)| <= n && Enc(log)[..n][..|Enc(kept)|] == Enc(kept)
  {
    hide Enc;
    EncPrefix(es, |kept|);
  }

  /** A log that has been written to its end. */
  lemma WholeLogReplays(log: seq<Entry>)
    requires WellFed(log) && !InMulti(log)
    ensures LoadLog(Enc(log)).0 == Loaded && Performed(Enc(log)) == Replay(log) && LoadedFile(Enc(log)) == Enc(log)
  {
    hide LoadFrom, Encode, WellFed, Interpret, Replay, InMulti, LoadLog, Performed;
    var n := |Enc(log)|;
    assert Enc(log)[..n] == Enc(log);
    AllComplete(log);
    TornLogReplays(log, n);
    assert Settled(log) == log;
  }

  lemma AllComplete(log: seq<Entry>)
    ensures Complete(log, |Enc(log)|) == log
  {
    WholeIsAll(ItemsOf(log));
    assert log[..|log|] == log;
  }

  // ----- feeding a log -----

  /** One call of feedAppendOnlyFile: a write in its database, or the MULTI or EXEC around a
      propagated transaction, which are fed for no database. */
  datatype What = Perform(w: Write) | OpenTx | CloseTx

  /** ... perhaps with an annotation before it. */
  datatype Call = Call(mark: Option<int>, what: What)

  predicate ValidWrite(w: Write) {
    ValidEntry(Select(w.db)) && ValidEntry(Exec(w.cmd))
  }

  /** The text of an annotation: the time, a C integer. */
  function Note(time: int): string {
    "TS:" + Dec(time)
  }

  predicate ValidCall(c: Call) {
    (c.mark.Some? ==> |Dec(c.mark.value)| <= 21) && (c.what.Perform? ==> ValidWrite(c.what.w))
  }

  lemma NoteValid(time: int)
    requires |Dec(time)| <= 21
    ensures ValidEntry(Mark(Note(time)))
  {
    assert '\n' !in Dec(time);
    hide Dec;
  }

  /** Transactions are opened and closed in turn, starting from `open`, and all are closed. */
  predicate Balanced(calls: seq<Call>, open: bool)
    decreases |calls|
  {
    if calls == [] then !open
    else
      && ValidCall(calls[0])
      && match calls[0].what
         case Perform(_) => Balanced(calls[1..], open)
         case OpenTx => !open && Balanced(calls[1..], true)
         case CloseTx => open && Balanced(calls[1..], false)
  }

  function FeedWhat(selected: int, what: What): seq<Entry> {
    match what
    case Perform(w) => (if w.db != selected then [Select(w.db)] else []) + [Exec(w.cmd)]
    case OpenTx => [Begin]
    case CloseTx => [End]
  }

  function FeedCall(selected: int, c: Call): seq<Entry> {
    (if c.mark.Some? then [Mark(Note(c.mark.value))] else []) + FeedWhat(selected, c.what)
  }

  /** aof_selected_db after a call. */
  function SelectedBy(selected: int, c: Call): int {
    if c.what.Perform? then c.what.w.db else selected
  }

  /** feedAppendOnlyFile, call after call: the entries, and the selected database. */
  function Feed(selected: int, calls: seq<Call>): (seq<Entry>, int)
    decreases |calls|
  {
    if calls == [] then ([], selected)
    else
      var rest := Feed(SelectedBy(selected, calls[0]), calls[1..]);
      (FeedCall(selected, calls[0]) + rest.0, rest.1)
  }

  function WritesOf(calls: seq<Call>): seq<Write>
    decreases |calls|
  {
    if calls == [] then []
    else (if calls[0].what.Perform? then [calls[0].what.w] else []) + WritesOf(calls[1..])
  }

  /** The selected database is the one that a client replaying the log would be in. */
  predicate Selects(selected: int, log: seq<Entry>) {
    selected == -1 || selected == DbAfter(log)
  }

  lemma FeedWhatGrows(log: seq<Entry>, selected: int, what: What)
    requires WellFed(log) && Selects(selected, log)
    requires match what
             case Perform(w) => ValidWrite(w)
             case OpenTx => !InMulti(log)
             case CloseTx => InMulti(log)
    ensures var log' := log + FeedWhat(selected, what);
            && WellFed(log') && Selects(if what.Perform? then what.w.db else selected, log')
            && InMulti(log') == (if what.Perform? then InMulti(log) else what.OpenTx?)
            && Replay(log') == Replay(log) + if what.Perform? then [what.w] else []
  {
    hide WellFed, InMulti, Replay, DbAfter, ValidEntry, Enc;
    match what
    case OpenTx => BracketsValid(); Snoc(log, Begin);
    case CloseTx => BracketsValid(); Snoc(log, End);
    case Perform(w) =>
      if w.db != selected {
        Snoc(log, Select(w.db));
        Snoc(log + [Select(w.db)], Exec(w.cmd));
        assert log + FeedWhat(selected, what) == log + [Select(w.db)] + [Exec(w.cmd)];
        assert Replay(log) + [] + [w] == Replay(log) + [w];
      } else {
        Snoc(log, Exec(w.cmd));
        assert log + FeedWhat(selected, what) == log + [Exec(w.cmd)];
      }
  }

  lemma BracketsValid()
    ensures ValidEntry(Begin) && ValidEntry(End)
  {
    assert Digits(1) == "1" && Digits(4) == "4" && Digits(5) == "5";
  }

  lemma FeedCallGrows(log: seq<Entry>, selected: int, c: Call)
    requires WellFed(log) && Selects(selected, log) && ValidCall(c)
    requires (c.what.OpenTx? ==> !InMulti(log)) && (c.what.CloseTx? ==> InMulti(log))
    ensures var log' := log + FeedCall(selected, c);
            && WellFed(log') && Selects(SelectedBy(selected, c), log')
            && InMulti(log') == (if c.what.Perform? then InMulti(log) else c.what.OpenTx?)
            && Replay(log') == Replay(log) + if c.what.Perform? then [c.what.w] else []
  {
    hide WellFed, InMulti, Replay, DbAfter, ValidEntry, Enc, FeedWhat, Note;
    var marked := if c.mark.Some? then log + [Mark(Note(c.mark.value))] else log;
    if c.mark.Some? {
      NoteValid(c.mark.value);
      Snoc(log, Mark(Note(c.mark.value)));
      assert Replay(log) + [] == Replay(log);
    }
    FeedWhatGrows(marked, selected, c.what);
    assert log + FeedCall(selected, c) == marked + FeedWhat(selected, c.what);
  }

  /** Whatever was selected, the fed entries perform exactly the writes of the calls, each in
      its own database, and leave no transaction open. */
  lemma {:induction false} FeedGrows(log: seq<Entry>, selected: int, calls: seq<Call>)
    requires WellFed(log) && Selects(selected, log) && Balanced(calls, InMulti(log))
    ensures var fed := Feed(selected, calls);
            && WellFed(log + fed.0) && Selects(fed.1, log + fed.0) && !InMulti(log + fed.0)
            && Replay(log + fed.0) == Replay(log) + WritesOf(calls)
    decreases |calls|
  {
    hide WellFed, InMulti, Replay, DbAfter, ValidCall, FeedCall, Selects;
    if calls == [] {
      assert log + [] == log && Replay(log) + [] == Replay(log);
    } else {
      var c := calls[0];
      var log' := log + FeedCall(selected, c);
      FeedCallGrows(log, selected, c);
      FeedGrows(log', SelectedBy(selected, c), calls[1..]);
      var rest := Feed(SelectedBy(selected, c), calls[1..]).0;
      assert log + (FeedCall(selected, c) + rest) == log' + rest;
      var one := if c.what.Perform? then [c.what.w] else [];
      assert Replay(log) + one + WritesOf(calls[1..]) == Replay(log) + (one + WritesOf(calls[1..]));
    }
  }

  // ----- appending to a file that was torn -----

  /** What the loader can tell of a file that can be continued: it does not end inside an
      annotation, nor inside a command of an open transaction. */
  predicate Resumable(bytes: string) {
    match LoadLog(bytes).0
    case Loaded => bytes == [] || bytes[|bytes| - 1] == '\n'
    case ShortEnd => LoadLog(bytes).1.client.queue.None?
    case OpenMulti => true
    case _ => false
  }

  lemma StampEnds(note: string, k: nat)
    requires '\n' !in note && 0 < k <= |EncodeItem(Stamp(note))|
    ensures EncodeItem(Stamp(note))[k - 1] == '\n' <==> k == |EncodeItem(Stamp(note))|
  {
  }

  lemma CommandEnds(argv: Command)
    requires argv != []
    ensures var text := EncodeCommand(argv); |text| > 0 && text[|text| - 1] == '\n'
  {
    hide Digits;
    ArgsEnd(argv);
  }

  lemma {:induction false} ArgsEnd(args: seq<string>)
    requires args != []
    ensures var text := EncodeArgs(args); |text| > 0 && text[|text| - 1] == '\n'
  {
    hide Digits;
    if |args| > 1 {
      ArgsEnd(args[1..]);
    } else {
      assert EncodeArgs(args[1..]) == [];
    }
  }

  lemma LogEnds(log: seq<Entry>)
    requires WellFed(log) && log != []
    ensures |Enc(log)| > 0 && Enc(log)[|Enc(log)| - 1] == '\n'
  {
    hide Encode, EncodeItem;
    SplitLast(log);
    Snoc(Front(log), Last(log));
    var item := ItemOf(Last(log));
    assert Writable(item);
    ItemEnds(item);
  }

  lemma ItemEnds(item: Item)
    requires Writable(item)
    ensures |EncodeItem(item)| > 0 && EncodeItem(item)[|EncodeItem(item)| - 1] == '\n'
  {
    match item
    case Cmd(argv) => CommandEnds(argv);
    case Stamp(note) => StampEnds(note, |EncodeItem(item)|);
  }

  /** The end of a file that loads: a whole log, or a cut annotation. */
  lemma LoadedEnds(log: seq<Entry>, n: nat)
    requires WellFed(log) && n <= |Enc(log)| && TornStatus(log, n).Loaded?
    ensures var bytes, es := Enc(log)[..n], Complete(log, n);
            && (bytes == Enc(es) <==> bytes == [] || bytes[n - 1] == '\n')
            && (bytes != Enc(es) ==>
                  && |es| < |log| && log[|es|].Mark? && 0 < n - |Enc(es)| < |EncodeItem(ItemOf(log[|es|]))|
                  && bytes == Enc(es) + EncodeItem(ItemOf(log[|es|]))[..n - |Enc(es)|])
  {
    hide Encode, EncodeItem, Whole, EndsCleanly, WellFed, InMulti;
    var bytes, es := Enc(log)[..n], Complete(log, n);
    CompleteEnds(log, n);
    if n == |Enc(es)| {
      assert bytes == Enc(es);
      WellFedPrefix(log, |es|);
      if es != [] {
        LogEnds(es);
      } else {
        assert Enc(es) == [] by { RunNothing(); }
      }
    } else {
      var e, k := log[|es|], n - |Enc(es)|;
      CutBytes(log, |es|, k);
      AllValid(log);
      assert ValidEntry(e);
      StampEnds(e.note, k);
      assert bytes[n - 1] == EncodeItem(ItemOf(e))[k - 1];
    }
  }

  lemma CutBytes(log: seq<Entry>, i: nat, k: nat)
    requires i < |log| && k <= |EncodeItem(ItemOf(log[i]))|
    ensures |Enc(log[..i])| + k <= |Enc(log)|
    ensures Enc(log)[..|Enc(log[..i])| + k] == Enc(log[..i]) + EncodeItem(ItemOf(log[i]))[..k]
  {
    hide Enc, EncodeItem;
    assert log[..i + 1] == log[..i] + [log[i]];
    Snoc(log[..i], log[i]);
    EncPrefix(log, i + 1);
  }

  /** Reading a log that is followed by other text. */
  lemma {:induction false} LoadThrough(items: seq<Item>, rest: string, l: Loader, lookup: Lookup)
    requires Loadable(items, lookup)
    ensures LoadFrom(Encode(items) + rest, l, lookup) == LoadFrom(rest, RunItems(l, items, lookup), lookup)
    decreases |items|
  {
    hide ParseItem, EncodeItem, RunOne, Writable;
    if items == [] {
      assert Encode(items) + rest == rest;
    } else {
      var head, more := EncodeItem(items[0]), Encode(items[1..]) + rest;
      assert Encode(items) + rest == head + more;
      ItemReads(items[0], more);
      LoadThrough(items[1..], rest, RunItem(l, items[0], lookup), lookup);
    }
  }

  /** The beginning of an annotation, without its line end. */
  predicate IsCut(cut: string, note: string) {
    var line := EncodeItem(Stamp(note));
    Writable(Stamp(note)) && 0 < |cut| < |line| && cut == line[..|cut|]
  }

  lemma CutText(cut: string, note: string)
    requires IsCut(cut, note)
    ensures cut != [] && '\n' !in cut && cut[0] == '#' && |cut| < LINE_ROOM
  {
    assert cut == ("#" + note + ['\r'])[..|cut|];
  }

  /** The line of an annotation goes on to the next line end. */
  lemma LongAnnotation(cut: string, line: string, tail: string)
    requires cut != [] && cut[0] == '#' && '\n' !in cut && '\n' !in line && |cut| + |line| < LINE_ROOM
    ensures ParseItem(cut + line + ['\n'] + tail) == Annotation(tail)
  {
    hide LineLength;
    var body := cut + line;
    var text := cut + line + ['\n'] + tail;
    assert text == body + ['\n'] + tail && '\n' !in body && text[0] == '#';
    LineLengthIs(body, tail, LINE_ROOM);
    assert text[|body| + 1..] == tail;
  }

  /** ... or to the end of the buffer. */
  lemma OverlongAnnotation(cut: string, line: string, tail: string)
    requires cut != [] && cut[0] == '#' && '\n' !in cut && '\n' !in line && |cut| < LINE_ROOM <= |cut| + |line|
    ensures ParseItem(cut + line + ['\n'] + tail) == Annotation(line[LINE_ROOM - |cut|..] + ['\n'] + tail)
  {
    hide LineLength;
    var body := cut + line;
    var text := cut + line + ['\n'] + tail;
    assert text == body + ['\n'] + tail && '\n' !in body && text[0] == '#';
    LineLengthIs(body, tail, LINE_ROOM);
    assert text[LINE_ROOM..] == line[LINE_ROOM - |cut|..] + ['\n'] + tail;
  }

  lemma NotACommand(tail: string, l: Loader)
    requires tail != [] && tail[0] != '*' && tail[0] != '#'
    ensures LoadFrom(tail, l, KindOf).0 == FormatError
  {
    hide LineLength, KindOf;
  }

  /** A line behind a cut annotation: it is skipped with it if both fit the buffer, and else the
      rest of it is not a command. */
  lemma LineBehindCut(cut: string, note: string, line: string, tail: string, l: Loader)
    requires IsCut(cut, note) && line != [] && '\n' !in line
    requires forall i :: 0 < i < |line| ==> line[i] != '*' && line[i] != '#'
    ensures var text := cut + line + ['\n'] + tail;
            if |cut| + |line| < LINE_ROOM then ParseItem(text) == Annotation(tail)
            else LoadFrom(text, l, KindOf).0 == FormatError
  {
    hide ParseItem, KindOf;
    CutText(cut, note);
    if |cut| + |line| < LINE_ROOM {
      LongAnnotation(cut, line, tail);
    } else {
      OverlongAnnotation(cut, line, tail);
      var text, rest := cut + line + ['\n'] + tail, line[LINE_ROOM - |cut|..] + ['\n'] + tail;
      NotACommand(rest, Skipped(l, |text| - |rest|));
    }
  }

  /** A command behind a cut annotation: its first line is taken for the rest of the
      annotation, and its first argument is not a command. */
  lemma SwallowedLine(cut: string, note: string, argv: Command, more: string, l: Loader)
    requires IsCut(cut, note) && Writable(Cmd(argv))
    ensures LoadFrom(cut + EncodeCommand(argv) + more, l, KindOf).0 == FormatError
  {
    hide ParseItem, KindOf, IsCut;
    var line, tail := "*" + Digits(|argv|) + ['\r'], EncodeArgs(argv) + more;
    var text := cut + EncodeCommand(argv) + more;
    assert forall i :: 0 <= i < |Digits(|argv|)| ==> '0' <= Digits(|argv|)[i] <= '9';
    hide Digits;
    assert text == cut + line + ['\n'] + tail;
    LineBehindCut(cut, note, line, tail, l);
    FirstArg(argv, more);
    NotACommand(tail, Skipped(l, |text| - |tail|));
  }

  lemma FirstArg(argv: Command, more: string)
    requires argv != []
    ensures var tail := EncodeArgs(argv) + more; tail != [] && tail[0] == '$'
  {
  }

  /** The file ends inside an annotation. */
  predicate InNote(bytes: string) {
    LoadLog(bytes).0.Loaded? && bytes != [] && bytes[|bytes| - 1] != '\n'
  }

  /** What follows the last line end. */
  function LastLine(bytes: string): (line: string)
    ensures |line| <= |bytes| && line == bytes[|bytes| - |line|..] && '\n' !in line
    ensures line == [] <==> bytes == [] || bytes[|bytes| - 1] == '\n'
  {
    if bytes == [] || bytes[|bytes| - 1] == '\n' then []
    else LastLine(bytes[..|bytes| - 1]) + [bytes[|bytes| - 1]]
  }

  lemma {:induction false} LastLineIs(lines: string, line: string)
    requires (lines == [] || lines[|lines| - 1] == '\n') && '\n' !in line
    ensures LastLine(lines + line) == line
    decreases |line|
  {
    if line == [] {
      assert lines + line == lines;
    } else {
      var n := |line| - 1;
      assert (lines + line)[..|lines + line| - 1] == lines + line[..n];
      LastLineIs(lines, line[..n]);
    }
  }

  /** The call has an annotation, and this fits the buffer behind the cut one. */
  predicate Joins(cut: string, c: Call) {
    c.mark.Some? && |cut| + |EncodeItem(Stamp(Note(c.mark.value)))| <= LINE_ROOM
  }

  /** The entries behind a cut annotation: the first annotation continues it. */
  function Joined(cut: string, entries: seq<Entry>): seq<Entry> {
    if cut == [] || entries == [] || !entries[0].Mark? then entries
    else [Mark(cut[1..] + "#" + entries[0].note)] + entries[1..]
  }

  lemma JoinedLine(cut: string, mark: string)
    requires cut != [] && cut[0] == '#'
    ensures EncodeItem(Stamp(cut[1..] + "#" + mark)) == cut + EncodeItem(Stamp(mark))
  {
    assert ["#"[0]] + cut[1..] == cut;
    assert "#" + (cut[1..] + "#" + mark) + CRLF == cut + ("#" + mark + CRLF);
  }

  lemma EncFirst(e: Entry, rest: seq<Entry>)
    ensures Enc([e] + rest) == EncodeItem(ItemOf(e)) + Enc(rest)
  {
    hide Encode, EncodeItem;
    EncConcat([e], rest);
    assert ItemsOf([e]) == [ItemOf(e)];
    EncodeOne(ItemOf(e));
  }

  lemma JoinedBytes(cut: string, entries: seq<Entry>)
    requires cut != [] && cut[0] == '#' && entries != [] && entries[0].Mark?
    ensures Enc(Joined(cut, entries)) == cut + Enc(entries)
  {
    hide Enc, EncodeItem;
    var mark, rest := entries[0], entries[1..];
    assert entries == [mark] + rest;
    EncFirst(mark, rest);
    EncFirst(Mark(cut[1..] + "#" + mark.note), rest);
    JoinedLine(cut, mark.note);
    assert cut + EncodeItem(ItemOf(mark)) + Enc(rest) == cut + (EncodeItem(ItemOf(mark)) + Enc(rest));
  }

  lemma JoinedValid(cut: string, note: string, c: Call)
    requires IsCut(cut, note) && Joins(cut, c) && ValidCall(c)
    ensures ValidEntry(Mark(cut[1..] + "#" + Note(c.mark.value)))
  {
    CutText(cut, note);
    assert '\n' !in Dec(c.mark.value);
    hide Dec;
  }

  /** A call whose annotation has been written already. */
  lemma FirstMark(selected: int, calls: seq<Call>)
    requires calls != [] && calls[0].mark.Some?
    ensures var rest := [calls[0].(mark := None)] + calls[1..];
            && Feed(selected, calls).0 == [Mark(Note(calls[0].mark.value))] + Feed(selected, rest).0
            && Feed(selected, calls).1 == Feed(selected, rest).1 && WritesOf(calls) == WritesOf(rest)
            && forall open :: Balanced(calls, open) ==> Balanced(rest, open) && ValidCall(calls[0])
  {
    hide FeedWhat, Note;
    var c, rest := calls[0], [calls[0].(mark := None)] + calls[1..];
    assert rest[1..] == calls[1..];
    var more := Feed(SelectedBy(selected, c), calls[1..]).0;
    assert [Mark(Note(c.mark.value))] + FeedWhat(selected, c.what) + more
        == [Mark(Note(c.mark.value))] + (FeedWhat(selected, c.what) + more);
    assert [] + FeedWhat(selected, c.what) == FeedWhat(selected, c.what);
  }

  /** Feeding behind a cut annotation, when the first call carries one that fits. */
  lemma FeedJoined(log: seq<Entry>, cut: string, note: string, selected: int, calls: seq<Call>)
    requires WellFed(log) && Selects(selected, log) && calls != [] && Balanced(calls, InMulti(log))
    requires IsCut(cut, note) && Joins(cut, calls[0])
    ensures var fed := Feed(selected, calls);
            var more := Joined(cut, fed.0);
            && WellFed(log + more) && Selects(fed.1, log + more) && !InMulti(log + more)
            && Replay(log + more) == Replay(log) + WritesOf(calls)
            && Enc(log + more) == Enc(log) + cut + Enc(fed.0) && fed.0 != []
  {
    hide WellFed, InMulti, Replay, DbAfter, ValidEntry, Feed, Enc, Note, WritesOf, IsCut, Joins, Joined, ValidCall,
      Selects;
    var fed := Feed(selected, calls);
    var more := Joined(cut, fed.0);
    var c, rest := calls[0], [calls[0].(mark := None)] + calls[1..];
    JoinsMark(cut, c);
    FirstMark(selected, calls);
    CutText(cut, note);
    JoinedValid(cut, note, c);
    var long := Mark(cut[1..] + "#" + Note(c.mark.value));
    FeedAfterMark(log, long, selected, rest);
    JoinedIs(cut, Note(c.mark.value), Feed(selected, rest).0);
    assert log + more == log + [long] + Feed(selected, rest).0;
    JoinedBytes(cut, fed.0);
    EncConcat(log, more);
    assert Enc(log) + (cut + Enc(fed.0)) == Enc(log) + cut + Enc(fed.0);
  }

  lemma JoinsMark(cut: string, c: Call)
    requires Joins(cut, c)
    ensures c.mark.Some?
  {
  }

  lemma JoinedIs(cut: string, mark: string, rest: seq<Entry>)
    requires cut != []
    ensures Joined(cut, [Mark(mark)] + rest) == [Mark(cut[1..] + "#" + mark)] + rest
  {
    assert ([Mark(mark)] + rest)[1..] == rest;
  }

  lemma FeedAfterMark(log: seq<Entry>, mark: Entry, selected: int, calls: seq<Call>)
    requires WellFed(log) && Selects(selected, log) && Balanced(calls, InMulti(log)) && mark.Mark? && ValidEntry(mark)
    ensures var fed := Feed(selected, calls);
            var log' := log + [mark] + fed.0;
            && WellFed(log') && Selects(fed.1, log') && !InMulti(log') && Replay(log') == Replay(log) + WritesOf(calls)
  {
    hide WellFed, InMulti, Replay, DbAfter, ValidEntry, Feed, Enc, WritesOf, Balanced;
    Snoc(log, mark);
    assert Replay(log) + [] == Replay(log);
    FeedGrows(log + [mark], selected, calls);
  }

  /** A write appended after a restart is read back, behind what was loaded, exactly when the
      file could be continued, or ended inside an annotation that the call continues with one of
      its own: a cut annotation swallows anything else, an open transaction withholds it. */
  lemma AppendNeedsResumable(log: seq<Entry>, n: nat, c: Call)
    requires WellFed(log) && n <= |Enc(log)| && ValidCall(c) && c.what.Perform?
    ensures var bytes := Enc(log)[..n];
            var file := LoadedFile(bytes) + Enc(FeedCall(-1, c));
            LoadLog(file).0 == Loaded && Performed(file) == Performed(bytes) + [c.what.w]
            <==> Resumable(bytes) || (InNote(bytes) && Joins(LastLine(bytes), c))
  {
    hide LoadLog, Performed, LoadedFile, Encode, EncodeItem, WellFed, InMulti, Replay, DbAfter, Whole, Trim, Settled,
      Cmds, Queue, LastLine, Joins, FeedCall;
    var bytes, es := Enc(log)[..n], Complete(log, n);
    TornLogReplays(log, n);
    if Resumable(bytes) {
      var kept := Resume(log, n);
      AppendCall(kept, c);
    } else if TornStatus(log, n).Loaded? {
      var note := NoteCut(log, n);
      AppendToCut(log, n, note, c);
    } else {
      WellFedPrefix(log, |es|);
      AppendInMulti(es, c);
    }
  }

  /** A file that ends inside an annotation: whole entries, and a piece of a line. */
  lemma NoteCut(log: seq<Entry>, n: nat) returns (note: string)
    requires WellFed(log) && n <= |Enc(log)| && InNote(Enc(log)[..n])
    ensures var bytes, es := Enc(log)[..n], Complete(log, n);
            && IsCut(LastLine(bytes), note) && bytes == Enc(es) + LastLine(bytes)
            && WellFed(es) && !InMulti(es) && Performed(bytes) == Replay(es)
  {
    hide LoadLog, Performed, LoadedFile, Enc, EncodeItem, WellFed, InMulti, Replay, LastLine, ValidEntry, Complete,
      KeptLog, IsCut;
    var bytes, es := Enc(log)[..n], Complete(log, n);
    TornLogReplays(log, n);
    LoadedEnds(log, n);
    CompletePrefix(log, n);
    WellFedPrefix(log, |es|);
    note := log[|es|].note;
    var cut := EncodeItem(Stamp(note))[..n - |Enc(es)|];
    AllValid(log);
    CutOfEntry(log[|es|], n - |Enc(es)|);
    CutText(cut, note);
    WholeLines(es);
    LastLineIs(Enc(es), cut);
    SettledAsIs(es);
  }

  lemma CutOfEntry(e: Entry, k: nat)
    requires e.Mark? && ValidEntry(e) && 0 < k < |EncodeItem(ItemOf(e))|
    ensures IsCut(EncodeItem(Stamp(e.note))[..k], e.note)
  {
  }

  lemma WholeLines(log: seq<Entry>)
    requires WellFed(log)
    ensures Enc(log) == [] || Enc(log)[|Enc(log)| - 1] == '\n'
    ensures LastLine(Enc(log)) == []
  {
    hide Encode, WellFed;
    if log == [] {
      RunNothing();
    } else {
      LogEnds(log);
    }
  }

  /** What a restart continues. */
  lemma Resume(log: seq<Entry>, n: nat) returns (kept: seq<Entry>)
    requires WellFed(log) && n <= |Enc(log)| && Resumable(Enc(log)[..n])
    ensures WellFed(kept) && !InMulti(kept) && LoadedFile(Enc(log)[..n]) == Enc(kept)
    ensures Replay(kept) == Performed(Enc(log)[..n])
  {
    hide LoadLog, Performed, LoadedFile, Encode, EncodeItem, WellFed, InMulti, Replay, DbAfter, Whole, Trim, Cmds,
      Queue;
    var es := Complete(log, n);
    TornLogReplays(log, n);
    WellFedPrefix(log, |es|);
    Prefixes(es);
    Prefixes(Settled(es));
    kept := KeptLog(log, n);
    assert |kept| <= |es| && kept == es[..|kept|];
    WellFedPrefix(es, |kept|);
    if TornStatus(log, n).Loaded? {
      LoadedEnds(log, n);
    }
  }

  lemma AppendCall(log: seq<Entry>, c: Call)
    requires WellFed(log) && ValidCall(c) && c.what.Perform?
    ensures var log' := log + FeedCall(-1, c);
            && WellFed(log') && InMulti(log') == InMulti(log) && Replay(log') == Replay(log) + [c.what.w]
            && Enc(log') == Enc(log) + Enc(FeedCall(-1, c))
    ensures !InMulti(log) ==> var file := Enc(log) + Enc(FeedCall(-1, c));
                              LoadLog(file).0 == Loaded && Performed(file) == Replay(log) + [c.what.w]
  {
    hide LoadLog, Performed, LoadedFile, Enc, WellFed, InMulti, Replay, DbAfter, FeedCall;
    FeedCallGrows(log, -1, c);
    EncConcat(log, FeedCall(-1, c));
    if !InMulti(log) {
      WholeLogReplays(log + FeedCall(-1, c));
    }
  }

  /** A call behind a cut annotation. */
  lemma AppendToCut(log: seq<Entry>, n: nat, note: string, c: Call)
    requires WellFed(log) && ValidCall(c) && c.what.Perform? && n <= |Enc(log)|
    requires var bytes, es := Enc(log)[..n], Complete(log, n);
             && IsCut(LastLine(bytes), note) && bytes == Enc(es) + LastLine(bytes) && WellFed(es) && !InMulti(es)
    ensures var bytes, es := Enc(log)[..n], Complete(log, n);
            var file := bytes + Enc(FeedCall(-1, c));
            if Joins(LastLine(bytes), c) then LoadLog(file).0 == Loaded && Performed(file) == Replay(es) + [c.what.w]
            else LoadLog(file).0 == FormatError
  {
    hide LoadLog, Performed, WellFed, InMulti, Replay, Joins, LastLine, Enc, IsCut, FeedCall;
    var bytes, es := Enc(log)[..n], Complete(log, n);
    var cut := LastLine(bytes);
    if Joins(cut, c) {
      JoinCall(es, cut, note, c);
    } else {
      NotJoined(es, cut, note, c);
    }
  }

  lemma JoinCall(es: seq<Entry>, cut: string, note: string, c: Call)
    requires WellFed(es) && !InMulti(es) && IsCut(cut, note) && ValidCall(c) && c.what.Perform? && Joins(cut, c)
    ensures var file := Enc(es) + cut + Enc(FeedCall(-1, c));
            LoadLog(file).0 == Loaded && Performed(file) == Replay(es) + [c.what.w]
  {
    hide LoadLog, Performed, WellFed, InMulti, Replay, Joins, Enc, IsCut, FeedCall, ValidCall;
    var none: seq<Call> := [];
    assert [c][1..] == none && Balanced(none, false);
    assert Feed(-1, [c]).0 == FeedCall(-1, c) by {
      assert Feed(SelectedBy(-1, c), none).0 == [];
      assert FeedCall(-1, c) + [] == FeedCall(-1, c);
    }
    assert WritesOf([c]) == [c.what.w] by { assert WritesOf(none) == []; }
    FeedJoined(es, cut, note, -1, [c]);
    WholeLogReplays(es + Joined(cut, FeedCall(-1, c)));
  }

  lemma MarkedBytes(c: Call)
    ensures Enc(FeedCall(-1, c))
            == (if c.mark.Some? then EncodeItem(Stamp(Note(c.mark.value))) else []) + Enc(FeedWhat(-1, c.what))
  {
    hide Encode, EncodeItem, Note;
    if c.mark.Some? {
      var mark := Mark(Note(c.mark.value));
      EncConcat([mark], FeedWhat(-1, c.what));
      assert ItemsOf([mark]) == [Stamp(mark.note)];
      EncodeOne(Stamp(mark.note));
    } else {
      assert [] + FeedWhat(-1, c.what) == FeedWhat(-1, c.what);
      assert [] + Enc(FeedWhat(-1, c.what)) == Enc(FeedWhat(-1, c.what));
    }
  }

  lemma SelectBytes(w: Write)
    ensures Enc(FeedWhat(-1, Perform(w))) == EncodeCommand(SelectCommand(w.db)) + Enc([Exec(w.cmd)])
  {
    hide Encode, EncodeItem, EncodeCommand;
    EncConcat([Select(w.db)], [Exec(w.cmd)]);
    assert ItemsOf([Select(w.db)]) == [Cmd(SelectCommand(w.db))];
    EncodeOne(Cmd(SelectCommand(w.db)));
    CommandItem(SelectCommand(w.db));
  }

  lemma NotJoined(es: seq<Entry>, cut: string, note: string, c: Call)
    requires WellFed(es) && IsCut(cut, note) && ValidCall(c) && c.what.Perform? && !Joins(cut, c)
    ensures LoadLog(Enc(es) + cut + Enc(FeedCall(-1, c))).0 == FormatError
  {
    hide EncodeItem, LoadFrom, RunItems, WellFed, Encode, Writable, KindOf, IsCut, EncodeCommand, FeedWhat, Note;
    FedLoadable(es);
    MarkedBytes(c);
    SelectBytes(c.what.w);
    var more := Enc(FeedCall(-1, c));
    assert Enc(es) + cut + more == Encode(ItemsOf(es)) + (cut + more);
    var l := RunItems(START, ItemsOf(es), KindOf);
    LoadThrough(ItemsOf(es), cut + more, START, KindOf);
    if c.mark.Some? {
      LongMark(cut, note, c.mark.value, Enc(FeedWhat(-1, c.what)), l);
    } else {
      var select := SelectCommand(c.what.w.db);
      assert Writable(Cmd(select)) by { assert ItemOf(Select(c.what.w.db)) == Cmd(select); }
      assert cut + more == cut + EncodeCommand(select) + Enc([Exec(c.what.w.cmd)]);
      SwallowedLine(cut, note, select, Enc([Exec(c.what.w.cmd)]), l);
    }
  }

  /** An annotation behind a cut one that makes its line too long. */
  lemma LongMark(cut: string, note: string, time: int, tail: string, l: Loader)
    requires IsCut(cut, note) && |cut| + |EncodeItem(Stamp(Note(time)))| > LINE_ROOM
    ensures LoadFrom(cut + (EncodeItem(Stamp(Note(time))) + tail), l, KindOf).0 == FormatError
  {
    hide ParseItem, KindOf, IsCut, LoadFrom;
    var line := "#" + Note(time) + ['\r'];
    DecChars(time);
    hide Dec;
    assert cut + (EncodeItem(Stamp(Note(time))) + tail) == cut + line + ['\n'] + tail;
    LineBehindCut(cut, note, line, tail, l);
  }

  lemma DecChars(n: int)
    ensures forall i :: 0 <= i < |Dec(n)| ==> Dec(n)[i] == '-' || '0' <= Dec(n)[i] <= '9'
  {
  }

  lemma CommandItem(argv: Command)
    ensures EncodeItem(Cmd(argv)) == EncodeCommand(argv)
  {
  }

  lemma AppendInMulti(es: seq<Entry>, c: Call)
    requires WellFed(es) && InMulti(es) && ValidCall(c) && c.what.Perform?
    ensures LoadLog(Enc(Trim(es)) + Enc(FeedCall(-1, c))).0 == OpenMulti
  {
    hide LoadLog, Encode, EncodeItem, WellFed, InMulti, Replay, DbAfter, Whole, Trim, Settled, FeedCall;
    Prefixes(es);
    WellFedPrefix(es, |Trim(es)|);
    AppendCall(Trim(es), c);
    var log := Trim(es) + FeedCall(-1, c);
    AllComplete(log);
    TornLogReplays(log, |Enc(log)|);
    assert Enc(log)[..|Enc(log)|] == Enc(log);
  }

  // ----- logs behind bytes -----

  /** The bytes of a log, perhaps torn. */
  ghost predicate IsTorn(bytes: string) {
    exists log, n: nat :: TornFrom(log, n, bytes)
  }

  predicate TornFrom(log: seq<Entry>, n: nat, bytes: string) {
    WellFed(log) && n <= |Enc(log)| && bytes == Enc(log)[..n]
  }

  /** Nothing, or the beginning of an annotation. */
  ghost predicate CutOk(cut: string) {
    cut == [] || exists note :: IsCut(cut, note)
  }

  /** A log that can be appended to, perhaps with the beginning of an annotation behind it. */
  ghost predicate IsLog(log: seq<Entry>, bytes: string) {
    WellFed(log) && !InMulti(log) && bytes == Enc(log) + LastLine(bytes) && CutOk(LastLine(bytes))
  }

  /** What is left of the file loads to its end, so that another file may follow it. */
  predicate Continuable(bytes: string) {
    LoadLog(LoadedFile(bytes)).0.Loaded?
  }

  /** A log loads, whatever piece of an annotation follows it. */
  lemma LogLoads(log: seq<Entry>, bytes: string)
    requires IsLog(log, bytes)
    ensures LoadLog(bytes).0.Loaded? && Performed(bytes) == Replay(log) && LoadedFile(bytes) == bytes && IsTorn(bytes)
  {
    hide LoadLog, Performed, LoadedFile, WellFed, InMulti, Enc, Replay, LastLine, IsCut;
    var cut := LastLine(bytes);
    if cut == [] {
      assert bytes == Enc(log);
      WholeLogReplays(log);
      assert Enc(log)[..|Enc(log)|] == Enc(log);
      assert TornFrom(log, |Enc(log)|, bytes);
    } else {
      var note :| IsCut(cut, note);
      CutLogLoads(log, cut, note);
      assert TornFrom(log + [Mark(note)], |bytes|, bytes);
    }
  }

  lemma CutLogLoads(log: seq<Entry>, cut: string, note: string)
    requires WellFed(log) && !InMulti(log) && IsCut(cut, note)
    ensures var bytes := Enc(log) + cut;
            && TornFrom(log + [Mark(note)], |bytes|, bytes)
            && LoadLog(bytes).0.Loaded? && Performed(bytes) == Replay(log) && LoadedFile(bytes) == bytes
  {
    hide LoadLog, Performed, LoadedFile, WellFed, InMulti, Enc, Replay, EncodeItem, Complete, DbAfter, Writable;
    var bytes, more := Enc(log) + cut, log + [Mark(note)];
    Snoc(log, Mark(note));
    var line := EncodeItem(Stamp(note));
    assert Enc(more)[..|bytes|] == bytes;
    CompleteBefore(log, Mark(note), |cut|);
    TornLogReplays(more, |bytes|);
    SettledAsIs(log);
  }

  /** The entries before the one that the bytes end in. */
  lemma CompleteBefore(log: seq<Entry>, e: Entry, k: nat)
    requires 0 < k < |EncodeItem(ItemOf(e))|
    ensures Complete(log + [e], |Enc(log)| + k) == log
  {
    hide Enc, EncodeItem, Complete;
    var more, n := log + [e], |Enc(log)| + k;
    Snoc(log, e);
    CompleteEnds(more, n);
    CompletePrefix(more, n);
    var es := Complete(more, n);
    assert more[..|log|] == log && more[..|more|] == more;
    if |es| < |log| {
      EncMonotone(more, |es| + 1, |log|);
      assert more[..|es| + 1] == more[..|es|] + [more[|es|]];
      EncSnoc(more[..|es|], more[|es|]);
    }
  }

  lemma ContinuableIs(bytes: string)
    requires IsTorn(bytes)
    ensures Continuable(bytes) <==> Resumable(bytes) || InNote(bytes)
  {
    hide LoadLog, LoadedFile, WellFed, InMulti, Enc, Replay, Performed;
    LoadTwice(bytes);
    var log, n: nat :| TornFrom(log, n, bytes);
    TornLogReplays(log, n);
    if Resumable(bytes) {
      var kept := Resume(log, n);
      WholeLogReplays(kept);
    } else if LoadLog(bytes).0.Loaded? {
      UnchangedIfLoaded(bytes);
    } else {
      StillOpen(log, n);
    }
  }

  /** A file cut inside a command of a transaction still ends inside that transaction. */
  lemma StillOpen(log: seq<Entry>, n: nat)
    requires WellFed(log) && n <= |Enc(log)| && TornStatus(log, n).ShortEnd? && InMulti(Complete(log, n))
    ensures LoadLog(Enc(KeptLog(log, n))).0 == OpenMulti
  {
    hide LoadLog, WellFed, InMulti, Enc, Replay, Complete, Trim, Settled, LoadedFile, Performed;
    var es := Complete(log, n);
    CompletePrefix(log, n);
    WellFedPrefix(log, |es|);
    Prefixes(es);
    WellFedPrefix(es, |Trim(es)|);
    var kept := Trim(es);
    AllComplete(kept);
    TornLogReplays(kept, |Enc(kept)|);
    assert Enc(kept)[..|Enc(kept)|] == Enc(kept);
  }

  /** A log with the given bytes, if there is one. */
  ghost function EntriesOf(bytes: string): seq<Entry> {
    if exists log :: IsLog(log, bytes) then
      var log :| IsLog(log, bytes);
      log
    else []
  }

  /** A file that a restart can continue is a log once it has been loaded. */
  lemma ResumedLog(bytes: string)
    requires IsTorn(bytes) && Continuable(bytes)
    ensures IsLog(EntriesOf(LoadedFile(bytes)), LoadedFile(bytes))
    ensures Replay(EntriesOf(LoadedFile(bytes))) == Performed(bytes)
  {
    hide Resumable, LoadedFile, Performed, LoadLog, WellFed, InMulti, Enc, Replay, IsLog, Continuable, LastLine;
    ContinuableIs(bytes);
    var log, n: nat :| TornFrom(log, n, bytes);
    var kept: seq<Entry>;
    if Resumable(bytes) {
      kept := Resume(log, n);
      WholeIsLog(kept);
    } else {
      UnchangedIfLoaded(bytes);
      var note := NoteCut(log, n);
      kept := Complete(log, n);
      CutIsLog(kept, bytes, note);
    }
    assert IsLog(kept, LoadedFile(bytes));
    LogLoads(kept, LoadedFile(bytes));
    LogLoads(EntriesOf(LoadedFile(bytes)), LoadedFile(bytes));
  }

  lemma WholeIsLog(log: seq<Entry>)
    requires WellFed(log) && !InMulti(log)
    ensures IsLog(log, Enc(log))
  {
    hide WellFed, InMulti, Enc, LastLine;
    WholeLines(log);
    assert Enc(log) + [] == Enc(log);
  }

  lemma CutIsLog(log: seq<Entry>, bytes: string, note: string)
    requires WellFed(log) && !InMulti(log) && IsCut(LastLine(bytes), note) && bytes == Enc(log) + LastLine(bytes)
    ensures IsLog(log, bytes)
  {
    hide WellFed, InMulti, Enc, LastLine, IsCut;
  }

  /** Loading a second time performs the same writes. */
  lemma LoadTwice(bytes: string)
    requires IsTorn(bytes)
    ensures LoadLog(bytes).0 in {Loaded, ShortEnd, OpenMulti} && LoadLog(LoadedFile(bytes)).0 in {Loaded, OpenMulti}
    ensures Performed(LoadedFile(bytes)) == Performed(bytes)
  {
    hide LoadedFile, Performed, LoadLog, WellFed, InMulti, Encode, Replay, Trim, Settled, Complete;
    var log, n: nat :| TornFrom(log, n, bytes);
    TornLogReplays(log, n);
    if !TornStatus(log, n).Loaded? {
      var es := Complete(log, n);
      CompletePrefix(log, n);
      WellFedPrefix(log, |es|);
      Prefixes(es);
      Prefixes(Settled(es));
      var kept := KeptLog(log, n);
      assert |kept| <= |es| && kept == es[..|kept|];
      WellFedPrefix(es, |kept|);
      AllComplete(kept);
      TornLogReplays(kept, |Enc(kept)|);
      assert Enc(kept)[..|Enc(kept)|] == Enc(kept);
      SettledTrim(es);
      SettledAsIs(kept);
    } else {
      UnchangedIfLoaded(bytes);
    }
  }

  lemma CompletePrefix(log: seq<Entry>, n: nat)
    ensures |Complete(log, n)| <= |log| && Complete(log, n) == log[..|Complete(log, n)|]
  {
  }

  lemma UnchangedIfLoaded(bytes: string)
    requires LoadLog(bytes).0.Loaded?
    ensures LoadedFile(bytes) == bytes
  {
    hide LoadLog;
  }

  lemma {:induction false} SettledTrim(log: seq<Entry>)
    ensures Replay(Settled(Trim(log))) == Replay(Settled(log))
    decreases |log|
  {
    hide Replay;
    if log != [] && Last(log).Mark? {
      SettledTrim(Front(log));
      SettledMark(log);
    }
  }

  lemma SettledMark(log: seq<Entry>)
    requires log != [] && Last(log).Mark?
    ensures Replay(Settled(log)) == Replay(Settled(Front(log)))
  {
    SettledAsIs(Front(log));
  }

  /** Which logs perform nothing. */
  lemma {:induction false} ReplaysNothing(log: seq<Entry>)
    ensures Replay(log) == [] <==> forall e :: e in log ==> !e.Exec?
    decreases |log|
  {
    if log != [] {
      ReplaysNothing(Front(log));
      SplitLast(log);
      assert forall e :: e in log <==> e in Front(log) || e == Last(log);
    }
  }

  /** The entries behind some point of a log are a log themselves. */
  lemma {:induction false} WellFedSuffix(a: seq<Entry>, b: seq<Entry>)
    requires WellFed(a + b)
    ensures WellFed(b) && (InMulti(b) ==> InMulti(a + b))
    decreases |b|
  {
    hide ValidEntry;
    if b != [] {
      assert Front(a + b) == a + Front(b);
      WellFedSuffix(a, Front(b));
    }
  }

  lemma NoBytesNoEntries(log: seq<Entry>)
    requires WellFed(log) && Enc(log) == []
    ensures log == []
  {
    if log != [] {
      LogEnds(log);
    }
  }
}
