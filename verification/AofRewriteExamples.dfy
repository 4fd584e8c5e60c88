/** Reachable servers on which the conditions of a careful run fail. */
module AofRewriteExamples {
  import opened Options
  import opened Decimal
  import opened AofManifest
  import opened AofLog
  import opened AofRewrite
  import opened AofCrashSafety
  import opened AofRewriteLimits
  import opened AofRewriteFailures
  import AofCodec
  import Stdio
  import AofFlush

  const FIRST := Manifest(Some(1), [1], [], 1, 1)
  const REWRITTEN := Manifest(Some(2), [], [IncrFile(1), BaseFile(1)], 2, 1)

  function FirstFiles(bytes: string): Files {
    map[BaseFile(1) := Snapshot([]), IncrFile(1) := Log(bytes)]
  }

  /** A server after its first start. */
  const FRESH := State(On, Idle, NoChild, true, [], [], -1, Open(IncrFile(1), true, 0), 0, FIRST, FIRST, FirstFiles([]),
                       [], [], [])

  lemma StartReachable()
    ensures Reachable(START)
  {
    assert CarefulRun(START, []) && Run(START, []) == START;
  }

  lemma FirstBoot()
    ensures BootLog(BootBase(START)) == FRESH.(phase := BootOpened, disk := EMPTY)
  {
    hide BootLog, RecoverWhole, EntriesOf, LoadLog, Performed, WellFed, InMulti, Enc, LoadedFile;
    var none: seq<Write> := [];
    var files: Files := map[][BaseFile(1) := Snapshot([])];
    assert files[IncrFile(1) := Log([])] == FirstFiles([]);
    var u := BootBase(START);
    assert u == START.(files := files, am := Manifest(Some(1), [], [], 1, 0));
    BootLogFirst(u);
    EmptyLog();
    LoadedLog([]);
    NoBytesNoEntries(EntriesOf([]));
    BaseAlone(u.am, FirstFiles([]), none);
    RecoverSame(BeforeLast(FIRST), u.am, FirstFiles([]));
  }

  lemma FreshReachable()
    ensures Reachable(FRESH)
  {
    hide Reachable, BootLog, BootBase;
    StartReachable();
    FirstBoot();
    ReachableStep(START, BootOpen);
    var booted := FRESH.(phase := BootOpened, disk := EMPTY);
    ReachableStep(booted, BootPersist);
    ReachableStep(FRESH.(phase := Deleting), FinishHandler);
  }

  /** The two log entries of the first write. */
  function FirstEntries(w: Write): seq<Entry> {
    [Select(w.db), Exec(w.cmd)]
  }

  function FirstBytes(w: Write): string {
    Enc(FirstEntries(w))
  }

  /** The first write is read back from its bytes. */
  lemma FirstBytesLoad(w: Write)
    requires ValidWrite(w)
    ensures LoadLog(FirstBytes(w)).0.Loaded? && Performed(FirstBytes(w)) == [w] && FirstBytes(w) != []
    ensures WellFed(FirstEntries(w)) && !InMulti(FirstEntries(w)) && Replay(FirstEntries(w)) == [w]
  {
    hide Enc, ValidEntry, WellFed, InMulti, Replay, LoadLog, Performed;
    EmptyLog();
    var c := Call(None, Perform(w));
    FirstCall(w);
    AppendCall([], c);
    assert [] + FirstEntries(w) == FirstEntries(w) && [] + [w] == [w] && [] + FirstBytes(w) == FirstBytes(w);
    CallNotEmpty(c);
  }

  lemma FirstCall(w: Write)
    ensures FeedCall(-1, Call(None, Perform(w))) == FirstEntries(w)
    ensures ValidWrite(w) ==> ValidCall(Call(None, Perform(w)))
  {
    hide ValidEntry;
    assert [] + FirstEntries(w) == FirstEntries(w);
  }

  /** A server that has just started and has executed one write, still in the buffer. */
  function OneWrite(w: Write): State {
    FRESH.(mem := [w], buf := FirstBytes(w), selected := w.db, fed := FirstEntries(w))
  }

  lemma OneWriteReachable(w: Write)
    requires ValidWrite(w)
    ensures Reachable(OneWrite(w))
  {
    hide Reachable, Enc, ValidWrite;
    FreshReachable();
    var calls := [Call(None, Perform(w))];
    FirstCall(w);
    FeedOneIs(FRESH, calls[0]);
    FeedOneFed(FRESH, w);
    assert [] + [w] == [w] && [] + FirstBytes(w) == FirstBytes(w);
    assert Do(FRESH, FeedStep(calls)) == OneWrite(w);
    ReachableStep(FRESH, FeedStep(calls));
  }

  lemma FeedOneFed(s: State, w: Write)
    requires s.mode.On? && s.selected == -1 && s.fed == [] && OpenBytes(s) == [] && ValidWrite(w)
    ensures DoFeed(s, [Call(None, Perform(w))]).fed == FirstEntries(w) && Cut(s) == []
  {
    hide Enc, ValidWrite, DoFeed, LastLine;
    NoCut();
    FirstCall(w);
    FeedOneIs(s, Call(None, Perform(w)));
    assert [] + FirstEntries(w) == FirstEntries(w);
  }

  /** A rewrite that starts now would apply the write twice. */
  lemma LeftoverAppliedTwice(w: Write)
    requires ValidWrite(w)
    ensures var s := OneWrite(w);
            && Reachable(s) && Enabled(s, CreateIncr) && LogOpen(ForkNow(s))
            && var t := CommitNow(ForkNow(s)); t.mem == [w] && Recover(t.disk, t.files) == Some([w] + [w])
  {
    hide Reachable, ForkNow, CommitNow, Recover, Performed, LoadLog, Leads, Do;
    OneWriteReachable(w);
    FirstBytesLoad(w);
    RewriteNeedsEmptyBuffer(OneWrite(w));
  }

  // ----- a start of the log that failed -----

  /** The same server after a flush and CONFIG SET appendonly no. */
  function Stopped(w: Write): State {
    State(Off, Idle, NoChild, true, [w], [], -1, Closed, 0, FIRST, FIRST, FirstFiles(FirstBytes(w)), [],
      FirstEntries(w), [w])
  }

  lemma FlushedFirst(w: Write)
    requires ValidWrite(w)
    ensures var s := OneWrite(w);
            var n := |FirstBytes(w)|;
            DoFlush(s, n, true)
            == s.(buf := [], size := n, files := FirstFiles(FirstBytes(w)), fd := Open(IncrFile(1), true, n))
  {
    hide Enc, DoFlush, WellFed, InMulti, Replay, LoadLog, Performed, ValidWrite;
    FirstBytesLoad(w);
    var s, bytes := OneWrite(w), FirstBytes(w);
    assert LogOpen(s) && OpenBytes(s) == [] && s.buf == bytes;
    FlushAppendIs(s);
    assert [] + bytes == bytes;
    FirstFilesPut(bytes);
  }

  lemma FirstFilesPut(bytes: string)
    ensures FirstFiles([])[IncrFile(1) := Log(bytes)] == FirstFiles(bytes)
  {
  }

  lemma StoppedReachable(w: Write)
    requires ValidWrite(w)
    ensures Reachable(Stopped(w))
  {
    hide Reachable, Enc, DoFlush, ValidWrite, WellFed, InMulti, Replay, LoadLog, Performed, Complete;
    OneWriteReachable(w);
    FlushedFirst(w);
    var s, n := OneWrite(w), |FirstBytes(w)|;
    ReachableStep(s, Flush(n, true));
    var f := DoFlush(s, n, true);
    FirstBytesLoad(w);
    AllComplete(FirstEntries(w));
    SettledAsIs(FirstEntries(w));
    assert [] + [w] == [w];
    ReachableStep(f, StopAof);
    assert DoStopAof(f) == Stopped(w);
  }

  /** ... and after CONFIG SET appendonly yes, when the fork failed: the log is off, and its
      descriptor is open. */
  function FailedStart(w: Write): State {
    Stopped(w).(fd := Open(TempIncr, false, 0), files := FirstFiles(FirstBytes(w))[TempIncr := Log([])], fed := [])
  }

  lemma FailedStartReachable(w: Write)
    requires ValidWrite(w)
    ensures Reachable(FailedStart(w))
  {
    hide Reachable, Enc;
    StoppedReachable(w);
    ReachableStep(Stopped(w), StartNow);
    ReachableStep(Do(Stopped(w), StartNow), ForkFails);
  }

  /** BGREWRITEAOF then writes a snapshot of the write and keeps the log that holds it as well. */
  lemma FailedStartAppliesTwice(w: Write)
    requires ValidWrite(w)
    ensures var s := FailedStart(w);
            var t := OffRewrite(s);
            Reachable(s) && Enabled(s, SkipIncr) && t.mem == [w] && Recover(t.disk, t.files) == Some([w] + [w])
  {
    hide Reachable, OffRewrite, Recover, Performed, LoadLog, Leads, Enc;
    FailedStartReachable(w);
    FirstBytesLoad(w);
    OffRewriteNeedsClosedLog(FailedStart(w));
  }

  // ----- a start that finds no INCR line -----

  /** The stopped server after a rewrite whose history files are not deleted yet. */
  function RewrittenOff(w: Write): State {
    Stopped(w).(phase := Committed(REWRITTEN), disk := REWRITTEN,
                files := FirstFiles(FirstBytes(w))[BaseFile(2) := Snapshot([w])])
  }

  lemma OffForked(s: State)
    requires s.phase.Idle? && s.mode.Off? && s.child.NoChild? && s.fd.Closed? && Reachable(s)
    ensures Reachable(DoFork(s))
  {
    hide Reachable;
    ReachableStep(s, SkipIncr);
    ReachableStep(s.(phase := ReadyToFork(false)), Fork);
  }

  lemma OffCommitted(s: State)
    requires s.phase.Idle? && s.mode.Off? && s.child.Running? && Reachable(s)
    ensures Reachable(Committing(s))
  {
    hide Reachable, DoCommit, NewBase;
    ReachableStep(s, ChildWrites);
    var a := DoChildWrites(s);
    ReachableStep(a, RenameBase);
    ReachableStep(DoRenameBase(a), Commit);
  }

  lemma RewrittenOffIs(w: Write)
    ensures Committing(DoFork(Stopped(w))) == RewrittenOff(w)
  {
    hide Enc;
    var files := FirstFiles(FirstBytes(w));
    assert files[TempBase := Snapshot([w])] - {TempBase} == files;
    assert IncrFiles([1]) == [IncrFile(1)];
    assert MarkRewritten(NewBase(FIRST), false) == REWRITTEN;
  }

  lemma RewrittenOffReachable(w: Write)
    requires ValidWrite(w)
    ensures Reachable(RewrittenOff(w))
  {
    hide Reachable, Enc, Committing;
    StoppedReachable(w);
    OffForked(Stopped(w));
    OffCommitted(DoFork(Stopped(w)));
    RewrittenOffIs(w);
  }

  /** Restarting it with the log on appends to a file that waits for deletion. */
  lemma RetiredLogReused(w: Write)
    requires ValidWrite(w)
    ensures var s := RewrittenOff(w);
            && Reachable(s)
            && var t := Started(s, true); t.mem == Owed(s) && Recover(t.disk, t.files) != Some(t.mem)
  {
    hide Reachable, Recover, Performed, Leads, Enc, Started, Owed, Enabled;
    RewrittenOffReachable(w);
    StartNeedsFirstName(RewrittenOff(w), true);
  }

  /** So does restarting it after the file was deleted and before the manifest says so. */
  lemma DeletedLogReused(w: Write)
    requires ValidWrite(w)
    ensures var s := DoDeleteHistory(RewrittenOff(w).(am := REWRITTEN, phase := Deleting));
            && Reachable(s) && IncrFile(1) !in s.files
            && var t := Started(s, true); t.mem == Owed(s) && Recover(t.disk, t.files) != Some(t.mem)
  {
    hide Reachable, Recover, Performed, Leads, Enc, Started, Owed;
    RewrittenOffReachable(w);
    ReachableStep(RewrittenOff(w), Install);
    var s := RewrittenOff(w).(am := REWRITTEN, phase := Deleting);
    ReachableStep(s, DeleteHistory);
    StartNeedsFirstName(DoDeleteHistory(s), true);
  }

  /** It has a history whose numbers a start that keeps it forgets: a careful run of the server
      started with the log off, or on, then unlinks a live file. */
  lemma HistoryForgotten(w: Write, mem: seq<Write>)
    requires ValidWrite(w)
    ensures var s := RewrittenOff(w);
            && Reachable(s) && !Collects(s, false)
            && exists t, n :: CanReach(DoRestartOff(s, mem, false), t) && Dangling(t, n)
  {
    hide Reachable, Enc, CanReach, Dangling, DoRestartOff;
    RewrittenOffReachable(w);
    var s := RewrittenOff(w);
    assert REWRITTEN.history[0] == IncrFile(1) && Reload(s.disk).incrSeq == 0;
    OffStartNeedsHistory(s, mem, false);
  }

  // ----- a gap in the log -----

  /** A server whose first rewrite could not fork, with one write in the buffer: its log is not
      in append mode. */
  function SecondLog(w: Write): State {
    var m := Manifest(Some(1), [1, 2], [], 1, 2);
    State(On, Idle, NoChild, true, [w], FirstBytes(w), w.db, Open(IncrFile(2), false, 0), 0, m, m,
          FirstFiles([])[IncrFile(2) := Log([])], [], FirstEntries(w), [])
  }

  /** The second log, before anything is written to it. */
  const SECOND := FRESH.(fd := Open(IncrFile(2), false, 0), am := Manifest(Some(1), [1, 2], [], 1, 2),
                         disk := Manifest(Some(1), [1, 2], [], 1, 2), files := FirstFiles([])[IncrFile(2) := Log([])])

  lemma SecondNamed()
    ensures Reachable(FRESH.(phase := Created(SECOND.am), disk := SECOND.am, files := SECOND.files))
  {
    hide Reachable;
    FreshReachable();
    ReachableStep(FRESH, CreateIncr);
    var a := FRESH.(phase := Creating(SECOND.am), files := SECOND.files);
    assert NewIncr(FIRST) == SECOND.am;
    assert DoCreateIncr(FRESH) == a;
    ReachableStep(a, PersistIncr);
  }

  lemma SwitchReachable(s: State)
    requires s.phase.Created? && Reachable(s)
    ensures Reachable(DoSwitchIncr(s).(phase := Idle))
  {
    hide Reachable, DoSwitchIncr;
    ReachableStep(s, SwitchIncr);
    SwitchPhase(s);
    ReachableStep(DoSwitchIncr(s), ForkFails);
  }

  lemma SwitchPhase(s: State)
    requires s.phase.Created?
    ensures DoSwitchIncr(s).phase == ReadyToFork(false)
  {
    hide Replay;
  }

  lemma SecondSwitched()
    ensures DoSwitchIncr(FRESH.(phase := Created(SECOND.am), disk := SECOND.am,
                                files := SECOND.files)).(phase := Idle) == SECOND
  {
    hide Replay;
    EmptyLog();
    var none: seq<Write> := [];
    assert none + none == none;
  }

  lemma SecondReachable()
    ensures Reachable(SECOND)
  {
    hide Reachable;
    SecondNamed();
    SwitchReachable(FRESH.(phase := Created(SECOND.am), disk := SECOND.am, files := SECOND.files));
    SecondSwitched();
  }

  lemma SecondLogReachable(w: Write)
    requires ValidWrite(w)
    ensures Reachable(SecondLog(w))
  {
    hide Reachable, Enc, ValidWrite, Replay;
    SecondReachable();
    FirstCall(w);
    FeedOneIs(SECOND, Call(None, Perform(w)));
    FeedOneFed(SECOND, w);
    var calls := [Call(None, Perform(w))];
    assert [] + [w] == [w] && [] + FirstBytes(w) == FirstBytes(w);
    assert DoFeed(SECOND, calls) == SecondLog(w);
    ReachableStep(SECOND, FeedStep(calls));
  }

  /** One byte gets out and is taken back; the next flush writes everything behind it. */
  lemma GapCannotBeLoaded(w: Write)
    requires ValidWrite(w)
    ensures var s := SecondLog(w);
            var n := |FirstBytes(w)|;
            && n > 1 && Reachable(DoFlush(s, 1, true)) && Enabled(DoFlush(s, 1, true), Flush(n, true))
            && var t := DoFlush(DoFlush(s, 1, true), n, true); Recover(t.disk, t.files).None?
  {
    hide Reachable, Recover, Enc, Performed, ValidWrite;
    SecondLogReachable(w);
    var s, bytes := SecondLog(w), FirstBytes(w);
    LongEnough(w);
    ReachableStep(s, Flush(1, true));
    var u := DoFlush(s, 1, true);
    RolledBack(s);
    var t := DoFlush(u, |bytes|, true);
    BehindGap(u);
    ZeroNotLoaded(bytes);
    LastBroken(t.disk, t.files);
  }

  lemma LongEnough(w: Write)
    requires ValidWrite(w)
    ensures |FirstBytes(w)| > 1
  {
    assert FirstEntries(w) == [Select(w.db)] + [Exec(w.cmd)];
    EncConcat([Select(w.db)], [Exec(w.cmd)]);
    assert ItemsOf([Select(w.db)]) == [AofCodec.Cmd(SelectCommand(w.db))];
    EncodeOne(AofCodec.Cmd(SelectCommand(w.db)));
  }

  lemma RolledBack(s: State)
    requires LogOpen(s) && OpenBytes(s) == [] && s.size == 0 && s.fd == Open(s.fd.name, false, 0) && |s.buf| > 1
    ensures DoFlush(s, 1, true) == s.(fd := Open(s.fd.name, false, 1))
  {
    var l := AofFlush.Flushed(OpenLog(s), 1, true);
    assert l.file == [];
    assert s.files[s.fd.name := Log([])] == s.files;
  }

  lemma BehindGap(s: State)
    requires LogOpen(s) && OpenBytes(s) == [] && s.size == 0 && s.fd == Open(s.fd.name, false, 1) && |s.buf| > 1
    ensures var t := DoFlush(s, |s.buf|, true);
            && t.disk == s.disk && s.fd.name in t.files && t.files[s.fd.name] == Log([Stdio.NUL] + s.buf)
  {
    assert s.buf[..|s.buf|] == s.buf;
    assert AofFlush.Zeros(1) == [Stdio.NUL];
    assert [] + AofFlush.Zeros(1) + s.buf + [] == [Stdio.NUL] + s.buf;
  }

  lemma ZeroNotLoaded(bytes: string)
    ensures LoadLog([Stdio.NUL] + bytes).0 == AofCodec.FormatError
  {
    var text := [Stdio.NUL] + bytes;
    assert text[0] == Stdio.NUL;
    assert AofCodec.ParseItem(text) == AofCodec.Malformed;
  }

  lemma LastBroken(m: Manifest, files: Files)
    requires m.incr != [] && LastName(m) in files && files[LastName(m)].Log?
    requires LoadLog(files[LastName(m)].bytes).0 == AofCodec.FormatError
    ensures Recover(m, files).None?
  {
    hide LoadLog, Performed, RecoverWhole;
  }

  // ----- a torn transaction -----

  function TxCalls(w: Write): seq<Call> {
    [Call(None, OpenTx), Call(None, Perform(w)), Call(None, CloseTx)]
  }

  function TxEntries(w: Write): seq<Entry> {
    [Begin, Select(w.db), Exec(w.cmd), End]
  }

  lemma OneCallMore(selected: int, c: Call, rest: seq<Call>, open: bool)
    ensures Feed(selected, [c] + rest)
            == (FeedCall(selected, c) + Feed(SelectedBy(selected, c), rest).0, Feed(SelectedBy(selected, c), rest).1)
    ensures WritesOf([c] + rest) == (if c.what.Perform? then [c.what.w] else []) + WritesOf(rest)
    ensures Balanced([c] + rest, open) <==> ValidCall(c) && match c.what
                                                            case Perform(_) => Balanced(rest, open)
                                                            case OpenTx => !open && Balanced(rest, true)
                                                            case CloseTx => open && Balanced(rest, false)
  {
    hide ValidCall, FeedCall;
    assert ([c] + rest)[1..] == rest;
  }

  lemma TxFed(w: Write)
    requires ValidWrite(w)
    ensures Balanced(TxCalls(w), false) && Feed(-1, TxCalls(w)) == (TxEntries(w), w.db) && WritesOf(TxCalls(w)) == [w]
  {
    hide ValidEntry, Feed, Balanced, WritesOf;
    var none: seq<Call> := [];
    var a, b, c := Call(None, OpenTx), Call(None, Perform(w)), Call(None, CloseTx);
    NoCalls(w.db);
    OneCallMore(w.db, c, none, true);
    OneCallMore(-1, b, [c] + none, true);
    OneCallMore(-1, a, [b] + ([c] + none), false);
    assert [a] + ([b] + ([c] + none)) == TxCalls(w);
    assert FeedCall(-1, a) + (FeedCall(-1, b) + (FeedCall(w.db, c) + [])) == TxEntries(w);
    assert [] + ([w] + ([] + [])) == [w];
  }

  lemma NoCalls(selected: int)
    ensures Balanced([], false) && Feed(selected, []) == ([], selected) && WritesOf([]) == []
  {
  }

  /** A server whose first transaction was written up to the first byte of its second command. */
  function TornTx(w: Write): State {
    var s := DoFeed(FRESH, TxCalls(w));
    DoFlush(s, |Enc([Begin])| + 1, false)
  }

  /** What is appended after a restart, whatever it is, will not be read back. */
  lemma TornTransactionWithholds(w: Write, c: Call)
    requires ValidWrite(w) && ValidCall(c) && c.what.Perform?
    ensures var s := TornTx(w);
            && Reachable(s) && s.disk.incr != []
               && Leads(Started(s, true), CallSteps(c), CallAndFlush(Started(s, true), c))
            && var t := CallAndFlush(Started(s, true), c);
               !(Recover(t.disk, t.files) == Some(t.mem) && LoadLog(BytesOf(t.files, LastName(s.disk))).0.Loaded?)
  {
    hide Reachable, Enc, ValidWrite, ValidCall, Resumable, Recover, Started, CallAndFlush, Leads, CallSteps, LoadLog,
      TornTx, InNote, LastLine;
    TornTxReachable(w);
    var s := TornTx(w);
    StartNeedsResumable(s, true, c);
  }

  lemma TornTxReachable(w: Write)
    requires ValidWrite(w)
    ensures var s := TornTx(w);
            Reachable(s) && s.disk == FIRST && !Resumable(LastBytes(s)) && !InNote(LastBytes(s))
  {
    hide Reachable, Enc, ValidWrite, Resumable, WellFed, InMulti, Balanced, Feed, Replay, LastLine;
    FreshReachable();
    NoCut();
    TxFed(w);
    ReachableStep(FRESH, FeedStep(TxCalls(w)));
    var s, n := DoFeed(FRESH, TxCalls(w)), |Enc([Begin])| + 1;
    var log := TxEntries(w);
    assert s.buf == Enc(log) by { assert [] + Enc(log) == Enc(log); }
    assert s.fed == log by { assert [] + log == log; }
    SecondItem(w);
    ReachableStep(s, Flush(n, false));
    PartKept(s, n);
    assert BytesOf(DoFlush(s, n, false).files, IncrFile(1)) == Enc(log)[..n];
    TornInMulti(w);
  }

  lemma SecondItem(w: Write)
    requires ValidWrite(w)
    ensures |Enc([Begin])| + 1 < |Enc(TxEntries(w))|
    ensures Complete(TxEntries(w), |Enc([Begin])| + 1) == [Begin]
  {
    hide Enc, ValidEntry, Complete, AofCodec.EncodeItem;
    var log := TxEntries(w);
    var one, two := [Begin], [Begin, Select(w.db)];
    EncSnoc([], Begin);
    EncSnoc(one, Select(w.db));
    assert [] + [Begin] == one && one + [Select(w.db)] == two;
    EncPrefix(log, 2);
    assert log[..2] == two && log[..1] == one;
    SelectLonger(w.db);
    EmptyLog();
    var n := |Enc(one)| + 1;
    CompleteEnds(log, n);
    var es := Complete(log, n);
    CompletePrefix(log, n);
    if |es| >= 2 {
      EncMonotone(log, 2, |es|);
    }
  }

  lemma SelectLonger(db: nat)
    ensures |AofCodec.EncodeItem(ItemOf(Select(db)))| > 2
  {
  }

  lemma PartKept(s: State, n: nat)
    requires LogOpen(s) && OpenBytes(s) == [] && s.fd.append && s.size == 0 && 0 < n < |s.buf|
    ensures var t := DoFlush(s, n, false); s.fd.name in t.files && t.files[s.fd.name] == Log(s.buf[..n])
  {
    assert [] + s.buf[..n] + [] == s.buf[..n];
  }

  lemma TornInMulti(w: Write)
    requires ValidWrite(w)
    ensures var n := |Enc([Begin])| + 1;
            var bytes := if n <= |Enc(TxEntries(w))| then Enc(TxEntries(w))[..n] else [];
            n <= |Enc(TxEntries(w))| && !Resumable(bytes) && !InNote(bytes)
  {
    hide Enc, ValidWrite, WellFed, LoadLog, Complete, LoadedFile, Performed, Replay, Settled;
    SecondItem(w);
    var log, n := TxEntries(w), |Enc([Begin])| + 1;
    TxFed(w);
    EmptyLog();
    FeedGrows([], -1, TxCalls(w));
    assert [] + log == log;
    TornLogReplays(log, n);
    BeginIsOpen();
  }

  lemma BeginIsOpen()
    ensures InMulti([Begin])
  {
  }

  // ----- a torn annotation -----

  /** A server of whose first write, with its annotation, one byte was written. */
  function TornNote(w: Write): State {
    DoFlush(DoFeed(FRESH, [Call(Some(0), Perform(w))]), 1, false)
  }

  lemma TornNoteReachable(w: Write)
    requires ValidWrite(w)
    ensures var s := TornNote(w); Reachable(s) && s.disk == FIRST && LastBytes(s) == "#"
  {
    hide Reachable, Enc, ValidWrite, LastLine, FeedCall;
    FreshReachable();
    NoCut();
    var c := Call(Some(0), Perform(w));
    assert ValidCall(c) by { assert Dec(0) == "0"; }
    FeedOneIs(FRESH, c);
    ReachableStep(FRESH, FeedStep([c]));
    var s := DoFeed(FRESH, [c]);
    NoteBytes(w);
    assert s.buf == Enc(FeedCall(-1, c)) by { assert [] + Enc(FeedCall(-1, c)) == Enc(FeedCall(-1, c)); }
    ReachableStep(s, Flush(1, false));
    PartKept(s, 1);
  }

  lemma NoteBytes(w: Write)
    ensures var bytes := Enc(FeedCall(-1, Call(Some(0), Perform(w)))); |bytes| > 1 && bytes[..1] == "#"
  {
    MarkedBytes(Call(Some(0), Perform(w)));
    hide Enc;
  }

  lemma HashLoads()
    ensures InNote("#") && !Resumable("#") && LastLine("#") == "#"
  {
    hide LoadLog, LastLine, Enc, WellFed, InMulti, Replay, Performed, LoadedFile;
    HashIsCut();
    EmptyLog();
    CutLogLoads([], "#", []);
    LastLineIs([], "#");
    assert [] + "#" == "#";
  }

  lemma HashIsCut()
    ensures IsCut("#", [])
  {
    assert AofCodec.EncodeItem(AofCodec.Stamp([])) == "#\r\n";
  }

  /** The first write after a restart is read back exactly when it brings an annotation. */
  lemma TornNoteSwallows(w: Write, c: Call)
    requires ValidWrite(w) && ValidCall(c) && c.what.Perform?
    ensures var s := TornNote(w);
            var d := Started(s, true);
            var t := CallAndFlush(d, c);
            && Reachable(s) && s.disk.incr != [] && Leads(d, CallSteps(c), t)
            && (Recover(t.disk, t.files) == Some(t.mem) && LoadLog(BytesOf(t.files, LastName(s.disk))).0.Loaded?
                <==> c.mark.Some?)
  {
    hide Reachable, Recover, Started, CallAndFlush, Leads, CallSteps, LoadLog, TornNote, InNote, LastLine, Resumable,
      ValidWrite;
    TornNoteReachable(w);
    HashLoads();
    StartNeedsResumable(TornNote(w), true, c);
  }

  // ----- switching the log on while an older child is running -----

  /** The stopped server after a start of the log that was stopped again: its temporary file stays. */
  function StoppedAgain(w: Write): State {
    Stopped(w).(files := FirstFiles(FirstBytes(w))[TempIncr := Log([])], fed := [])
  }

  lemma StoppedAgainReachable(w: Write)
    requires ValidWrite(w)
    ensures Reachable(StoppedAgain(w))
  {
    hide Reachable, Enc;
    StoppedReachable(w);
    ReachableStep(Stopped(w), StartNow);
    var a := Do(Stopped(w), StartNow);
    assert a == OpenTemp(Stopped(w).(mode := Wait, child := NoChild), true);
    ForkReachable(a);
    StopReachable(DoFork(a));
  }

  lemma ForkReachable(s: State)
    requires s.phase.ReadyToFork? && Reachable(s)
    ensures Reachable(DoFork(s))
  {
    hide Reachable;
    ReachableStep(s, Fork);
  }

  lemma StopReachable(s: State)
    requires s.phase.Idle? && !s.mode.Off? && Reachable(s)
    ensures Reachable(DoStopAof(s))
  {
    hide Reachable, DoStopAof;
    ReachableStep(s, StopAof);
  }

  /** ... during BGREWRITEAOF, whose child is done, and after one more write. */
  function LateWrite(w: Write, v: Write): State {
    DoChildWrites(DoFork(StoppedAgain(w))).(mem := [w] + [v])
  }

  lemma LateWriteReachable(w: Write, v: Write)
    requires ValidWrite(w) && ValidWrite(v)
    ensures Reachable(LateWrite(w, v)) && Reachable(DoChildWrites(DoFork(StoppedAgain(w))))
  {
    hide Reachable, Enc, ValidWrite;
    StoppedAgainReachable(w);
    OffForked(StoppedAgain(w));
    var a := DoFork(StoppedAgain(w));
    ReachableStep(a, ChildWrites);
    var b := DoChildWrites(a);
    var c := Call(None, Perform(v));
    FirstCall(v);
    OneCall(c);
    ReachableStep(b, FeedStep([c]));
    assert DoFeed(b, [c]) == LateWrite(w, v);
  }

  /** Switching the log on now, in a transaction, loses that write. */
  lemma LateStartLosesWrite(w: Write, v: Write)
    requires ValidWrite(w) && ValidWrite(v)
    ensures var s := LateWrite(w, v);
            && Reachable(s) && Enabled(s, StartLater) && s.child.Finished? && TempIncr in s.files
            && var t := LateStart(s); t.mem == [w] + [v] && Recover(t.disk, t.files) == Some([w])
  {
    hide Reachable, LateStart, Recover, Leads, Enc, Performed;
    LateWriteReachable(w, v);
    LateStartNeedsNoChild(LateWrite(w, v));
    assert [w] + [] == [w];
  }

  /** ... and without it, recovery is right, and the server is left without a log. */
  lemma LateStartWithoutLog(w: Write)
    requires ValidWrite(w)
    ensures var s := DoChildWrites(DoFork(StoppedAgain(w)));
            var t, u := LateStart(s), LateFinished(s);
            && Reachable(s) && Enabled(s, StartLater) && s.child.Finished? && TempIncr in s.files
            && Recover(t.disk, t.files) == Some(t.mem)
            && u.mode.On? && u.phase.Idle? && u.fd.Closed? && u.am.incr == []
  {
    hide Reachable, LateStart, LateFinished, Recover, Leads, Enc, Performed, LateSteps, DoFeed, Balanced;
    LateWriteReachable(w, w);
    var s := DoChildWrites(DoFork(StoppedAgain(w)));
    LateStartNeedsNoChild(s);
    LateStartLeavesNoLog(s);
    assert [w] + [] == [w];
  }

  // ----- a first INCR file that the manifest does not name -----

  const OFF := State(Off, Idle, NoChild, true, [], [], -1, Closed, 0, EMPTY, EMPTY, map[], [], [], [])

  lemma OffReachable()
    ensures Reachable(OFF)
  {
    hide Reachable, DoRestartOff;
    StartReachable();
    FirstOff();
    ReachableStep(START, RestartOff([], true));
    var a := DoRestartOff(START, [], true);
    FinishReachable(a);
  }

  lemma FirstOff()
    ensures DoRestartOff(START, [], true) == OFF.(phase := Deleting)
  {
  }

  lemma FinishReachable(s: State)
    requires s.phase.Deleting? && s.am.history == [] && Reachable(s)
    ensures Reachable(DoFinishHandler(s))
  {
    hide Reachable;
    ReachableStep(s, FinishHandler);
  }

  /** The server that is switched on for the first time, during its rewrite, with one write of which
      the first byte is in the temporary INCR file. */
  function FirstByte(w: Write): State {
    OFF.(mode := Wait, child := Running([]), mem := [w], buf := FirstBytes(w)[1..], selected := w.db,
         fd := Open(TempIncr, false, 1), size := 1, files := map[TempIncr := Log("*")], fed := FirstEntries(w))
  }

  lemma FirstChar(w: Write)
    requires ValidWrite(w)
    ensures |FirstBytes(w)| > 1 && FirstBytes(w)[..1] == "*"
  {
    LongEnough(w);
    SelectBytes(w);
    FirstCall(w);
    assert FeedWhat(-1, Perform(w)) == FirstEntries(w);
    assert FirstBytes(w)[0] == '*';
  }

  lemma FirstByteReachable(w: Write)
    requires ValidWrite(w)
    ensures Reachable(FirstByte(w))
  {
    hide Reachable, Enc, ValidWrite, DoFlush;
    OffReachable();
    ReachableStep(OFF, StartNow);
    var a := OpenTemp(OFF.(mode := Wait, child := NoChild), true);
    assert Do(OFF, StartNow) == a;
    ForkReachable(a);
    var b := DoFork(a);
    WaitFed(b, w);
    var d := b.(mem := [w], buf := FirstBytes(w), selected := w.db, fed := FirstEntries(w));
    FirstChar(w);
    ReachableStep(d, Flush(1, false));
    OneByteOut(d);
    assert map[][TempIncr := Log([])][TempIncr := Log("*")] == map[TempIncr := Log("*")];
  }

  lemma WaitFed(s: State, w: Write)
    requires s.phase.Idle? && s.mode.Wait? && s.child.Running? && s.mem == [] && s.buf == [] && s.fed == []
    requires s.selected == -1 && OpenBytes(s) == [] && ValidWrite(w) && Reachable(s)
    ensures Reachable(s.(mem := [w], buf := FirstBytes(w), selected := w.db, fed := FirstEntries(w)))
  {
    hide Reachable, Enc, ValidWrite, LastLine, Feed, WritesOf, Balanced, DoFeed, FeedCall;
    NoCut();
    var c := Call(None, Perform(w));
    FirstCall(w);
    OneCall(c);
    CutFedIs(s, [c]);
    FeedFrame(s, [c]);
    FeedReachable(s, [c]);
    assert [] + [w] == [w] && [] + FirstEntries(w) == FirstEntries(w);
  }

  lemma FeedReachable(s: State, calls: seq<Call>)
    requires s.phase.Idle? && Balanced(calls, false) && Cut(s) == [] && Reachable(s)
    ensures Reachable(DoFeed(s, calls))
  {
    hide Reachable, Balanced, DoFeed, Cut;
    ReachableStep(s, FeedStep(calls));
  }

  lemma OneByteOut(s: State)
    requires LogOpen(s) && OpenBytes(s) == [] && s.size == 0 && s.fd == Open(s.fd.name, false, 0)
    requires |s.buf| > 1 && s.buf[..1] == "*"
    ensures DoFlush(s, 1, false)
            == s.(buf := s.buf[1..], size := 1, fd := Open(s.fd.name, false, 1),
              files := s.files[s.fd.name := Log("*")])
  {
    var l := AofFlush.Flushed(OpenLog(s), 1, false);
    assert l.file == "*";
  }

  /** ... and after ChildWrites, RenameBase and RenameIncr. */
  function UnnamedFirst(w: Write): State {
    DoRenameIncr(DoRenameBase(DoChildWrites(FirstByte(w))))
  }

  lemma UnnamedFirstReachable(w: Write)
    requires ValidWrite(w)
    ensures var s := UnnamedFirst(w);
            && Reachable(s) && s.disk == EMPTY && IncrFile(1) in s.files && s.files[IncrFile(1)] == Log("*")
  {
    hide Reachable, Enc;
    FirstByteReachable(w);
    var a := FirstByte(w);
    ReachableStep(a, ChildWrites);
    var b := DoChildWrites(a);
    RenameReachable(b);
    RenameIncrReachable(DoRenameBase(b));
  }

  lemma RenameReachable(s: State)
    requires s.phase.Idle? && s.child.Finished? && TempBase in s.files && Reachable(s)
    ensures Reachable(DoRenameBase(s))
  {
    hide Reachable, DoRenameBase;
    ReachableStep(s, RenameBase);
  }

  lemma RenameIncrReachable(s: State)
    requires s.phase.BaseRenamed? && s.mode.Wait? && TempIncr in s.files && Reachable(s)
    ensures Reachable(DoRenameIncr(s))
  {
    hide Reachable, DoRenameIncr;
    ReachableStep(s, RenameIncr);
  }

  lemma StarLoads()
    ensures LoadLog("*").0.ShortEnd? && Performed("*") == []
  {
    assert AofCodec.ParseItem("*") == AofCodec.ShortRead;
  }

  lemma StarBefore(c: Call)
    requires c.what.Perform?
    ensures LoadLog("*" + Enc(FeedCall(-1, c))).0 == AofCodec.FormatError
  {
    hide Enc, AofCodec.ParseArgs;
    CallNotEmpty(c);
    CallStarts(c);
    StarCount(Enc(FeedCall(-1, c)));
  }

  lemma CallStarts(c: Call)
    requires c.what.Perform?
    ensures Enc(FeedCall(-1, c)) != [] && Enc(FeedCall(-1, c))[0] in "#*"
  {
    hide Enc;
    MarkedBytes(c);
    SelectBytes(c.what.w);
  }

  lemma StarCount(text: string)
    requires text != [] && text[0] in "#*"
    ensures AofCodec.ParseItem("*" + text) == AofCodec.Malformed
  {
    hide AofCodec.ParseArgs;
    var all := "*" + text;
    var n := Stdio.LineLength(all, AofCodec.LINE_ROOM);
    StarLine(text);
    assert all[1..n][0] == text[0];
  }

  lemma StarLine(text: string)
    requires text != [] && text[0] in "#*"
    ensures Stdio.LineLength("*" + text, AofCodec.LINE_ROOM) >= 2
  {
    assert ("*" + text)[1..] == text;
  }

  /** A server that crashes now starts rightly, and cannot be started again after its first write. */
  lemma UnnamedFirstBreaks(w: Write, c: Call)
    requires ValidWrite(w) && ValidCall(c) && c.what.Perform?
    ensures var s := UnnamedFirst(w);
            var d := Started(s, true);
            var t := CallAndFlush(d, c);
            && Reachable(s) && s.disk.incr == [] && FirstNameFree(s, true) && Recover(d.disk, d.files) == Some(d.mem)
            && Leads(d, CallSteps(c), t) && Recover(t.disk, t.files).None?
  {
    hide Reachable, Recover, Performed, Leads, Enc, Started, Owed, Enabled, CallAndFlush, CallSteps, ValidCall,
      UnnamedFirst, LoadLog, FeedCall, ValidWrite;
    UnnamedFirstReachable(w);
    var s := UnnamedFirst(w);
    StarLoads();
    StartNeedsFirstName(s, true);
    StarBefore(c);
    ReachableInv(s);
    FirstAppends(s, true, c);
    var t := CallAndFlush(Started(s, true), c);
    LastBroken(t.disk, t.files);
  }
}
