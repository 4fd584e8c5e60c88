/** Crash safety of the append-only file: in every run, at every crash point, loading the files
    named by the manifest on disk rebuilds exactly what the log promised.
  */
module AofCrashSafety {
  import opened Options
  import opened AofManifest
  import opened AofLog
  import opened AofRewrite
  import AofCodec
  import AofCodecProofs
  import AofFlush

  // ----- the manifest operations keep its order -----

  lemma NewBaseWellFormed(m: Manifest)
    requires WellFormed(m)
    ensures WellFormed(NewBase(m))
  {
  }

  lemma NewIncrOrdered(m: Manifest)
    requires Ordered(m) && m.base.Some? && IncrFile(m.incrSeq + 1) !in m.history
    ensures Ordered(NewIncr(m)) && (Remembers(m) ==> WellFormed(NewIncr(m)))
  {
    SeqBound(m);
  }

  lemma NewIncrWellFormed(m: Manifest)
    requires WellFormed(m) && m.base.Some?
    ensures WellFormed(NewIncr(m))
  {
    NewIncrOrdered(m);
  }

  /** Every live INCR number is at most the last one handed out. */
  lemma SeqBound(m: Manifest)
    requires Ordered(m)
    ensures forall i :: 0 <= i < |m.incr| ==> m.incr[i] <= m.incrSeq
  {
  }

  lemma MarkRewrittenWellFormed(m: Manifest, logOpen: bool)
    requires WellFormed(m)
    ensures WellFormed(MarkRewritten(m, logOpen))
  {
    SeqBound(m);
    var cut := |m.incr| - Kept(m, logOpen);
    var r := MarkRewritten(m, logOpen);
    forall f | f in r.history
      ensures Retired(r, f) && (f.IncrFile? ==> f.n <= r.incrSeq)
    {
      if f in IncrFiles(m.incr[..cut]) {
        var i :| 0 <= i < cut && f == IncrFile(m.incr[i]);
        assert forall j :: cut <= j < |m.incr| ==> m.incr[i] < m.incr[j];
      }
    }
  }

  /** Reloading keeps a manifest in order; it keeps it well-formed exactly when no retired INCR
      number exceeds those still named, since only INCR lines restore the counter. */
  lemma ReloadWellFormed(m: Manifest)
    requires Ordered(m)
    ensures Ordered(Reload(m))
    ensures WellFormed(Reload(m))
            <==> forall f :: f in m.history && f.IncrFile? ==> m.incr != [] && f.n <= m.incr[|m.incr| - 1]
  {
    if WellFormed(Reload(m)) {
      forall f | f in m.history && f.IncrFile?
        ensures m.incr != [] && f.n <= m.incr[|m.incr| - 1]
      {
        assert Retired(m, f);
      }
    }
  }

  // ----- recovery depends on the live files only -----

  /** Two directories agree on a file. */
  predicate Agree(f: FileName, files: Files, files': Files) {
    (f in files <==> f in files') && (f in files ==> files[f] == files'[f])
  }

  lemma {:induction false} RecoverIncrFrame(incr: seq<nat>, files: Files, files': Files)
    requires forall i :: 0 <= i < |incr| ==> Agree(IncrFile(incr[i]), files, files')
    ensures RecoverIncr(incr, files') == RecoverIncr(incr, files)
    decreases |incr|
  {
    hide LoadLog, Performed;
    if incr != [] {
      RecoverIncrFrame(incr[..|incr| - 1], files, files');
      assert Agree(IncrFile(incr[|incr| - 1]), files, files');
    }
  }

  lemma LiveNames(m: Manifest)
    ensures forall i :: 0 <= i < |m.incr| ==> IncrFile(m.incr[i]) in Live(m)
    ensures m.base.Some? ==> BaseFile(m.base.value) in Live(m)
    ensures m.incr != [] ==> LastName(m) in Live(m) && forall f :: f in Live(BeforeLast(m)) ==> f in Live(m)
  {
    forall i | 0 <= i < |m.incr|
      ensures IncrFile(m.incr[i]) in Live(m)
    {
      assert Live(m)[|BaseFiles(m)| + i] == IncrFile(m.incr[i]);
    }
    if m.base.Some? {
      assert Live(m)[0] == BaseFile(m.base.value);
    }
  }

  lemma RecoverWholeFrame(m: Manifest, files: Files, files': Files)
    requires forall f :: f in Live(m) ==> Agree(f, files, files')
    ensures RecoverWhole(m, files') == RecoverWhole(m, files)
  {
    hide RecoverIncr, Live;
    LiveNames(m);
    RecoverIncrFrame(m.incr, files, files');
  }

  /** Files that the manifest does not name do not matter. */
  lemma RecoverFrame(m: Manifest, files: Files, files': Files)
    requires forall f :: f in Live(m) ==> Agree(f, files, files')
    ensures Recover(m, files') == Recover(m, files)
  {
    hide RecoverWhole, LoadLog, Performed, Live, Usable;
    LiveNames(m);
    if m.incr == [] {
      RecoverWholeFrame(m, files, files');
    } else {
      RecoverWholeFrame(BeforeLast(m), files, files');
    }
  }

  /** A name that is not the BASE and not one of the INCR numbers is not live. */
  lemma NotLive(m: Manifest, f: FileName)
    requires match f
             case BaseFile(n) => m.base != Some(n)
             case IncrFile(n) => n !in m.incr
             case _ => true
    ensures f !in Live(m)
  {
    forall i | 0 <= i < |Live(m)|
      ensures Live(m)[i] != f
    {
    }
  }

  lemma LastNotBefore(m: Manifest)
    requires Ordered(m) && m.incr != []
    ensures LastName(m) !in Live(BeforeLast(m))
  {
    NotLive(BeforeLast(m), LastName(m));
  }

  ghost predicate SameLive(a: Manifest, b: Manifest) {
    a.base == b.base && a.incr == b.incr
  }

  lemma RecoverSame(a: Manifest, b: Manifest, files: Files)
    requires SameLive(a, b)
    ensures Recover(a, files) == Recover(b, files) && RecoverWhole(a, files) == RecoverWhole(b, files)
    ensures Live(a) == Live(b)
  {
    hide RecoverIncr, LoadLog, Performed, Usable;
  }

  /** Loading to the end and loading leniently agree when the last file is whole. */
  lemma RecoverStrict(m: Manifest, files: Files)
    requires m.incr != [] && LastName(m) in files && files[LastName(m)].Log?
    requires LoadLog(files[LastName(m)].bytes).0.Loaded?
    ensures RecoverWhole(m, files) == Recover(m, files)
  {
    hide LoadLog, Performed;
    var base, incr := RecoverBase(m, files), RecoverIncr(m.incr[..|m.incr| - 1], files);
    if base.Some? && incr.Some? {
      var last := Performed(files[LastName(m)].bytes);
      assert base.value + (incr.value + last) == base.value + incr.value + last;
    }
  }

  /** Naming a new, empty INCR file: everything before it must be whole. */
  lemma RecoverNewIncr(m: Manifest, files: Files)
    requires IncrFile(m.incrSeq + 1) in files && files[IncrFile(m.incrSeq + 1)] == Log([])
    ensures Recover(NewIncr(m), files) == RecoverWhole(m, files)
  {
    hide RecoverWhole;
    EmptyLog();
    assert BeforeLast(NewIncr(m)) == m.(incrSeq := m.incrSeq + 1);
    RecoverSame(BeforeLast(NewIncr(m)), m, files);
    var r := RecoverWhole(m, files);
    if r.Some? {
      assert r.value + [] == r.value;
    }
  }

  lemma EmptyLog()
    ensures Enc([]) == [] && WellFed([]) && !InMulti([]) && Replay([]) == [] && DbAfter([]) == 0
    ensures LoadLog([]).0.Loaded? && Performed([]) == [] && Usable([]) && LoadedFile([]) == []
    ensures Complete([], 0) == [] && IsTorn([]) && Resumable([])
  {
    WholeLogReplays([]);
    assert TornFrom([], 0, []);
  }

  // ----- the invariant -----

  /** The accounted part of the open log followed by the buffer is everything fed, perhaps with a
      piece of an annotation behind it; the descriptor is right behind it, or further behind
      after a write was rolled back. */
  ghost predicate Accounted(s: State) {
    && LogOpen(s)
    && AofFlush.Conserved(OpenLog(s), Enc(s.fed) + Cut(s)) && CutOk(Cut(s))
    && |OpenBytes(s)| == s.size
    && (s.fd.append || s.fd.offset >= s.size)
  }

  /** What was fed is a log, and the selected database is the one a replaying client is in. */
  ghost predicate FedOk(s: State) {
    WellFed(s.fed) && !InMulti(s.fed) && Selects(s.selected, s.fed)
  }

  /** The last INCR file of `m` is open, what precedes it is known, and memory is that and
      everything fed. */
  ghost predicate LogOk(s: State, m: Manifest) {
    && m.incr != []
    && LogOpen(s) && s.fd.name == LastName(m) && Accounted(s) && FedOk(s)
    && RecoverWhole(BeforeLast(m), s.files) == Some(s.before)
    && s.mem == s.before + Replay(s.fed)
  }

  /** While the first rewrite runs: memory is the snapshot and everything fed. */
  ghost predicate WaitOk(s: State, snap: seq<Write>, name: FileName) {
    && LogOpen(s) && s.fd.name == name && Accounted(s) && FedOk(s)
    && s.mem == snap + Replay(s.fed)
  }

  ghost predicate TempReady(s: State) {
    && s.fd == Open(TempIncr, false, 0) && TempIncr in s.files && s.files[TempIncr] == Log([])
    && s.buf == [] && s.size == 0 && s.fed == [] && s.selected == -1
  }

  /** With the log off, the last INCR file would stay live behind a new BASE if the descriptor
      is open; it must then hold no command. */
  predicate Harmless(s: State) {
    s.fd.Closed? || s.am.incr == [] || Performed(BytesOf(s.files, LastName(s.am))) == []
  }

  ghost predicate BaseReady(s: State, temp: Manifest, snap: seq<Write>) {
    BaseFile(temp.baseSeq) in s.files && s.files[BaseFile(temp.baseSeq)] == Snapshot(snap)
  }

  ghost predicate NewLogReady(s: State, temp: Manifest) {
    IncrFile(temp.incrSeq) in s.files && s.files[IncrFile(temp.incrSeq)] == Log([])
  }

  ghost predicate IdleOk(s: State) {
    && SameLive(s.disk, s.am)
    && (s.child.Finished? ==> TempBase in s.files && s.files[TempBase] == Snapshot(s.child.snap))
    && match s.mode
       case On => LogOk(s, s.am) && (!s.child.NoChild? ==> s.child.snap == s.before)
       case Wait => if s.child.NoChild? then s.buf == [] else WaitOk(s, s.child.snap, TempIncr)
       case Off => s.buf == [] && (!s.child.NoChild? ==> Harmless(s))
  }

  /** A file that the log can go on in. */
  ghost predicate Continues(c: Content, writes: seq<Write>) {
    c.Log? && IsLog(EntriesOf(c.bytes), c.bytes) && Replay(EntriesOf(c.bytes)) == writes
  }

  ghost predicate BootingOk(s: State) {
    && s.mode.On? && s.buf == [] && s.fd.Closed? && s.selected == -1
    && s.am == Reload(s.disk) && s.mem == s.durable
    && (if s.disk.incr == [] then
          IncrFile(1) !in s.disk.history && (IncrFile(1) in s.files ==> Continues(s.files[IncrFile(1)], []))
        else
          LastName(s.disk) in s.files && s.files[LastName(s.disk)].Log?
          && Continues(s.files[LastName(s.disk)], Performed(s.files[LastName(s.disk)].bytes)))
  }

  ghost predicate CreatingOk(s: State, temp: Manifest) {
    s.mode.On? && s.buf == [] && s.selected == -1 && LogOk(s, s.am) && temp == NewIncr(s.am) && NewLogReady(s, temp)
  }

  ghost predicate ForkOk(s: State, starting: bool) {
    match s.mode
    case On => !starting && LogOk(s, s.am) && s.buf == [] && s.fed == []
    case Wait => TempReady(s)
    case Off => !starting && s.buf == [] && Harmless(s)
  }

  ghost predicate RenamedOk(s: State, snap: seq<Write>) {
    match s.mode
    case On => LogOk(s, s.am) && snap == s.before
    case Wait => WaitOk(s, snap, TempIncr)
    case Off => s.buf == [] && Harmless(s)
  }

  ghost predicate KeptOk(s: State, m: Manifest) {
    if s.mode.Off? then s.buf == [] else LogOk(s, m)
  }

  ghost predicate PhaseOk(s: State) {
    && (!s.phase.Idle? && !s.phase.Collecting? ==> s.child.NoChild?)
    && match s.phase
       case Idle => IdleOk(s)
       case Collecting => IdleOk(s)
       case Booting => BootingOk(s)
       case BootOpened =>
         s.mode.On? && s.buf == [] && LogOk(s, s.am)
       case Creating(temp) => SameLive(s.disk, s.am) && CreatingOk(s, temp)
       case Created(temp) => s.disk == temp && CreatingOk(s, temp)
       case ReadyToFork(starting) => SameLive(s.disk, s.am) && ForkOk(s, starting)
       case BaseRenamed(temp, snap) =>
         SameLive(s.disk, s.am) && temp == NewBase(s.am) && BaseReady(s, temp, snap) && RenamedOk(s, snap)
       case IncrRenamed(temp, snap) =>
         s.mode.Wait? && SameLive(s.disk, s.am) && temp == NewIncr(NewBase(s.am)) && BaseReady(s, temp, snap)
         && WaitOk(s, snap, IncrFile(temp.incrSeq))
       case Committed(m) => s.disk == m && WellFormed(m) && KeptOk(s, m)
       case Deleting => SameLive(s.disk, s.am) && KeptOk(s, s.am)
  }

  /** Snapshots under the names of snapshots, logs under the names of logs. */
  ghost predicate FilesOk(files: Files) {
    forall f :: f in files ==>
      if f.BaseFile? || f.TempBase? then files[f].Snapshot? else files[f].Log? && IsTorn(files[f].bytes)
  }

  /** A start that deletes the history may have forgotten its numbers, for as long as it lasts. */
  ghost predicate HistoryOk(s: State) {
    Ordered(s.am) && (Remembers(s.am) || (s.gc && (s.phase.Booting? || s.phase.BootOpened? || s.phase.Deleting?)))
  }

  ghost predicate Inv(s: State) {
    && HistoryOk(s) && Ordered(s.disk) && FilesOk(s.files)
    && Recover(s.disk, s.files) == Some(Owed(s))
    && PhaseOk(s)
  }

  // The phases one at a time.

  lemma IdlePhase(s: State)
    ensures s.phase.Idle? || s.phase.Collecting? ==> (PhaseOk(s) <==> IdleOk(s))
    ensures PhaseOk(s) && !s.child.NoChild? ==> s.phase.Idle? || s.phase.Collecting?
  {
  }

  lemma CreatingPhase(s: State)
    ensures s.phase.Creating? ==>
              (PhaseOk(s) <==> s.child.NoChild? && SameLive(s.disk, s.am) && CreatingOk(s, s.phase.temp))
    ensures s.phase.Created? ==>
              (PhaseOk(s) <==> s.child.NoChild? && s.disk == s.phase.temp && CreatingOk(s, s.phase.temp))
  {
  }

  lemma ForkPhase(s: State)
    requires s.phase.ReadyToFork?
    ensures PhaseOk(s) <==> s.child.NoChild? && SameLive(s.disk, s.am) && ForkOk(s, s.phase.starting)
  {
  }

  lemma RenamedPhase(s: State)
    requires s.phase.BaseRenamed?
    ensures PhaseOk(s)
            <==> && s.child.NoChild? && SameLive(s.disk, s.am) && s.phase.temp == NewBase(s.am)
                 && BaseReady(s, s.phase.temp, s.phase.snap) && RenamedOk(s, s.phase.snap)
  {
  }

  lemma IncrRenamedPhase(s: State)
    requires s.phase.IncrRenamed?
    ensures PhaseOk(s)
            <==> && s.child.NoChild? && s.mode.Wait? && SameLive(s.disk, s.am)
                 && s.phase.temp == NewIncr(NewBase(s.am)) && BaseReady(s, s.phase.temp, s.phase.snap)
                 && WaitOk(s, s.phase.snap, IncrFile(s.phase.temp.incrSeq))
  {
  }

  lemma KeptPhase(s: State)
    ensures s.phase.Committed? ==>
              (PhaseOk(s) <==> s.child.NoChild? && s.disk == s.phase.temp && WellFormed(s.disk) && KeptOk(s, s.disk))
    ensures s.phase.Deleting? ==> (PhaseOk(s) <==> s.child.NoChild? && SameLive(s.disk, s.am) && KeptOk(s, s.am))
    ensures s.phase.BootOpened? ==> (PhaseOk(s) <==> s.child.NoChild? && s.mode.On? && s.buf == [] && LogOk(s, s.am))
  {
  }

  // ----- what a run must respect -----

  /** A start that finds no INCR line opens number 1: that name must not be waiting for deletion,
      and a file of that name must load to its end and perform nothing. */
  ghost predicate FirstFree(s: State) {
    && IncrFile(1) !in s.disk.history
    && var bytes := BytesOf(s.files, IncrFile(1)); LoadLog(bytes).0.Loaded? && Performed(bytes) == []
  }

  /** A start that does not delete the history must not forget its numbers. */
  ghost predicate Collects(s: State, gc: bool) {
    gc || Remembers(Reload(s.disk))
  }

  /** The flush before a rewrite wrote everything; nothing is written behind a gap; a rewrite
      with the log off finds no open log with commands; the log is not switched on by a
      transaction while a child of the time before is running; a restart leaves a log that loads
      to its end, or finds the first name free; and if that log ends inside an annotation, the
      first call afterwards continues it with one of its own. */
  ghost predicate Careful(s: State, step: Step) {
    match step
    case FeedStep(calls) => s.mode.Off? || Cut(s) == [] || calls == [] || Joins(Cut(s), calls[0])
    case Flush(n, truncateOk) =>
      LogOpen(s) ==> s.fd.append || s.fd.offset == s.size || n == 0 || AofFlush.RollsBack(OpenLog(s), n, truncateOk)
    case CreateIncr => s.buf == []
    case SkipIncr => Harmless(s)
    case StartLater => s.child.NoChild?
    case Restart(gc) =>
      && (if s.disk.incr == [] then FirstFree(s) else Continuable(BytesOf(s.files, LastName(s.disk))))
      && Collects(s, gc)
    case RestartOff(_, gc) => Collects(s, gc)
    case _ => true
  }

  // ----- the open log -----

  /** What is in the file, what is in the buffer. */
  lemma AccountedBytes(s: State)
    requires LogOpen(s) && Accounted(s)
    ensures var all := Enc(s.fed) + Cut(s);
            s.size <= |all| && OpenBytes(s) == all[..s.size] && s.buf == all[s.size..]
    ensures s.buf != [] || Cut(s) == [] ==>
              s.size <= |Enc(s.fed)| && OpenBytes(s) == Enc(s.fed)[..s.size] && s.buf == Enc(s.fed)[s.size..]
  {
    hide Enc, LastLine, CutOk;
    assert OpenBytes(s)[..s.size] == OpenBytes(s);
    assert Enc(s.fed) + [] == Enc(s.fed);
  }

  lemma EmptyBuffer(s: State)
    requires LogOpen(s) && Accounted(s) && WellFed(s.fed) && !InMulti(s.fed) && s.buf == []
    ensures IsLog(s.fed, OpenBytes(s)) && s.size == |OpenBytes(s)| && Complete(s.fed, s.size) == s.fed
  {
    hide Enc, Complete, LastLine, CutOk, WellFed, InMulti;
    AccountedBytes(s);
    CompleteMore(s.fed, s.size);
  }

  lemma CompleteMore(log: seq<Entry>, n: nat)
    requires n >= |Enc(log)|
    ensures Complete(log, n) == log
  {
    hide AofCodec.Encode, AofCodecProofs.Whole;
    WholeOfMore(ItemsOf(log), n);
    assert log[..|log|] == log;
  }

  lemma {:induction false} WholeOfMore(items: seq<AofCodec.Item>, n: nat)
    requires n >= |AofCodec.Encode(items)|
    ensures AofCodecProofs.Whole(items, n) == items
    decreases |items|
  {
    hide AofCodec.EncodeItem;
    if items != [] {
      WholeOfMore(items[1..], n - |AofCodec.EncodeItem(items[0])|);
    }
  }

  /** The open log on disk: the complete entries that are not in an open transaction. */
  lemma OpenLogLoads(s: State)
    requires LogOpen(s) && Accounted(s) && FedOk(s)
    ensures Usable(OpenBytes(s)) && IsTorn(OpenBytes(s))
    ensures Performed(OpenBytes(s)) == Replay(Settled(Complete(s.fed, s.size)))
    ensures s.buf == [] ==> LoadLog(OpenBytes(s)).0.Loaded? && Performed(OpenBytes(s)) == Replay(s.fed)
  {
    hide Enc, Accounted, WellFed, InMulti, Replay, LoadLog, Performed, LoadedFile, Complete, Settled, IsLog, Cut;
    AccountedBytes(s);
    if s.buf == [] {
      EmptyBuffer(s);
      LogLoads(s.fed, OpenBytes(s));
      SettledAsIs(s.fed);
    } else {
      TornLogReplays(s.fed, s.size);
      assert TornFrom(s.fed, s.size, OpenBytes(s));
    }
  }

  /** Recovery of a manifest whose last file is the open log. */
  lemma OpenRecovers(s: State, m: Manifest)
    requires LogOk(s, m)
    ensures Recover(m, s.files) == Some(s.before + Replay(Settled(Complete(s.fed, s.size))))
    ensures s.buf == [] ==> Recover(m, s.files) == Some(s.mem) && RecoverWhole(m, s.files) == Some(s.mem)
  {
    hide Accounted, FedOk, RecoverWhole, LoadLog, Performed, Usable, Replay, Settled, Complete;
    OpenLogLoads(s);
    if s.buf == [] {
      RecoverStrict(m, s.files);
    }
  }

  lemma SettledAll(s: State)
    requires LogOpen(s) && Accounted(s) && FedOk(s) && s.buf == []
    ensures Replay(Settled(Complete(s.fed, s.size))) == Replay(s.fed)
  {
    hide Accounted, Replay, Complete, Enc, IsLog;
    EmptyBuffer(s);
  }

  // ----- feeding and flushing -----

  lemma FeedExtends(s: State, calls: seq<Call>)
    requires LogOpen(s) && Accounted(s) && FedOk(s) && Balanced(calls, false) && !s.mode.Off?
    requires s.mode.On? || !s.child.NoChild?
    requires Careful(s, FeedStep(calls))
    ensures var t := DoFeed(s, calls);
            && LogOpen(t) && Accounted(t) && FedOk(t) && OpenBytes(t) == OpenBytes(s)
            && Replay(t.fed) == Replay(s.fed) + WritesOf(calls)
            && Complete(t.fed, t.size) == Complete(s.fed, s.size)
  {
    hide Accounted, FedOk, DoFeed, Replay, Complete;
    if Cut(s) == [] {
      FeedWhole(s, calls);
    } else if calls == [] {
      FeedNone(s);
    } else {
      FeedBehindCut(s, calls);
    }
  }

  lemma FeedWhole(s: State, calls: seq<Call>)
    requires LogOpen(s) && Accounted(s) && FedOk(s) && Balanced(calls, false) && !s.mode.Off?
    requires (s.mode.On? || !s.child.NoChild?) && Cut(s) == []
    ensures var t := DoFeed(s, calls);
            && LogOpen(t) && Accounted(t) && FedOk(t) && OpenBytes(t) == OpenBytes(s)
            && Replay(t.fed) == Replay(s.fed) + WritesOf(calls)
            && Complete(t.fed, t.size) == Complete(s.fed, s.size)
  {
    hide Enc, WellFed, InMulti, Replay, Feed, Balanced, Complete, LastLine;
    FeedGrows(s.fed, s.selected, calls);
    var t := DoFeed(s, calls);
    var more := Feed(s.selected, calls).0;
    EncConcat(s.fed, more);
    assert t.fed == s.fed + more;
    assert Enc(s.fed) + [] == Enc(s.fed) && Enc(t.fed) + [] == Enc(t.fed);
    var l := OpenLog(s);
    assert l.file[..l.size] + (l.buf + Enc(more)) == l.file[..l.size] + l.buf + Enc(more);
    AccountedBytes(s);
    MoreToCome(s.fed, more, s.size);
    assert Cut(t) == [];
  }

  lemma FeedNone(s: State)
    requires LogOpen(s) && Accounted(s) && FedOk(s)
    ensures var t := DoFeed(s, []);
            && LogOpen(t) && Accounted(t) && FedOk(t) && OpenBytes(t) == OpenBytes(s)
            && Replay(t.fed) == Replay(s.fed) + WritesOf([])
            && Complete(t.fed, t.size) == Complete(s.fed, s.size)
  {
    hide Enc, WellFed, InMulti, Replay, Complete, LastLine, CutOk, AofFlush.Conserved;
    var none: seq<Entry> := [];
    NoEntries();
    assert s.buf + [] == s.buf && s.fed + none == s.fed && Replay(s.fed) + [] == Replay(s.fed);
    assert s.mem + [] == s.mem;
  }

  lemma NoEntries()
    ensures Enc([]) == [] && WritesOf([]) == [] && forall db :: Feed(db, []) == ([], db)
    ensures forall cut :: Joined(cut, []) == []
  {
  }

  lemma FeedBehindCut(s: State, calls: seq<Call>)
    requires LogOpen(s) && Accounted(s) && FedOk(s) && calls != [] && Balanced(calls, false) && !s.mode.Off?
    requires (s.mode.On? || !s.child.NoChild?) && Cut(s) != [] && Joins(Cut(s), calls[0])
    ensures var t := DoFeed(s, calls);
            && LogOpen(t) && Accounted(t) && FedOk(t) && OpenBytes(t) == OpenBytes(s)
            && Replay(t.fed) == Replay(s.fed) + WritesOf(calls)
            && Complete(t.fed, t.size) == Complete(s.fed, s.size)
  {
    hide Enc, WellFed, InMulti, Replay, Feed, Balanced, Complete, LastLine, Joins, IsCut, Joined, WritesOf, Selects,
      Accounted, DoFeed;
    var cut, fed := Cut(s), Feed(s.selected, calls);
    var note := CutNote(s);
    FeedJoined(s.fed, cut, note, s.selected, calls);
    var t := DoFeed(s, calls);
    JoinsMark(cut, calls[0]);
    FirstMark(s.selected, calls);
    CutText(cut, note);
    CutFedIs(s, calls);
    EncNotEmpty(fed.0);
    BehindCut(s, t, fed.0);
    CutComplete(s.fed, cut, fed.0);
    CompleteMore(s.fed, s.size);
  }

  lemma CutNote(s: State) returns (note: string)
    requires LogOpen(s) && Accounted(s) && Cut(s) != []
    ensures IsCut(Cut(s), note) && s.buf == [] && OpenBytes(s) == Enc(s.fed) + Cut(s)
            && s.size == |Enc(s.fed)| + |Cut(s)|
  {
    hide Enc, LastLine, IsCut;
    note :| IsCut(Cut(s), note);
    AccountedBytes(s);
  }

  lemma CutFedIs(s: State, calls: seq<Call>)
    requires !s.mode.Off? && (s.mode.On? || !s.child.NoChild?) && s.buf == []
    ensures var t := DoFeed(s, calls);
            var fed := Feed(s.selected, calls);
            t == s.(mem := t.mem, selected := fed.1, buf := Enc(fed.0), fed := s.fed + Joined(Cut(s), fed.0))
  {
    hide Enc, Feed, Joined, Cut, WritesOf;
    assert [] + Enc(Feed(s.selected, calls).0) == Enc(Feed(s.selected, calls).0);
  }

  lemma BehindCut(s: State, t: State, entries: seq<Entry>)
    requires LogOpen(s) && Accounted(s) && s.buf == [] && OpenBytes(s) == Enc(s.fed) + Cut(s)
    requires t == s.(mem := t.mem, selected := t.selected, buf := Enc(entries), fed := t.fed) && t.buf != []
    requires Enc(t.fed) == Enc(s.fed) + Cut(s) + Enc(entries)
    ensures LogOpen(t) && Accounted(t) && OpenBytes(t) == OpenBytes(s)
  {
    hide Enc, LastLine, CutOk;
    NoCut();
    assert OpenBytes(t)[..t.size] == OpenBytes(t);
    assert Enc(t.fed) + [] == Enc(t.fed);
  }

  lemma EncNotEmpty(log: seq<Entry>)
    requires log != []
    ensures Enc(log) != []
  {
    hide Enc;
    EncFirst(log[0], log[1..]);
    assert [log[0]] + log[1..] == log;
    assert AofCodec.EncodeItem(ItemOf(log[0])) != [];
  }

  /** What is complete when entries follow a piece of an annotation. */
  lemma CutComplete(log: seq<Entry>, cut: string, entries: seq<Entry>)
    requires cut != [] && cut[0] == '#' && entries != [] && entries[0].Mark?
    ensures Complete(log + Joined(cut, entries), |Enc(log)| + |cut|) == log
  {
    hide Enc, Complete, AofCodec.EncodeItem;
    var long := Mark(cut[1..] + "#" + entries[0].note);
    var all := log + Joined(cut, entries);
    assert all == log + [long] + entries[1..];
    JoinedLine(cut, entries[0].note);
    assert AofCodec.EncodeItem(AofCodec.Stamp(entries[0].note)) != [] by { StampNotEmpty(entries[0].note); }
    CompleteBefore(log, long, |cut|);
    Snoc(log, long);
    SameComplete(log + [long], all, |Enc(log)| + |cut|);
  }

  lemma StampNotEmpty(note: string)
    ensures AofCodec.EncodeItem(AofCodec.Stamp(note)) != []
  {
  }

  /** Feeding does not change which entries are complete. */
  lemma MoreToCome(log: seq<Entry>, more: seq<Entry>, n: nat)
    requires n <= |Enc(log)|
    ensures Complete(log + more, n) == Complete(log, n)
  {
    hide Enc, Complete;
    EncConcat(log, more);
    SameComplete(log, log + more, n);
  }

  lemma SameComplete(log: seq<Entry>, all: seq<Entry>, n: nat)
    requires log <= all && n <= |Enc(log)|
    ensures Complete(all, n) == Complete(log, n)
  {
    hide AofCodecProofs.Whole, AofCodec.Encode, AofCodec.EncodeItem;
    WholeMore(ItemsOf(log), ItemsOf(all), n);
  }

  lemma {:induction false} WholeMore(items: seq<AofCodec.Item>, all: seq<AofCodec.Item>, n: nat)
    requires items <= all && n <= |AofCodec.Encode(items)|
    ensures AofCodecProofs.Whole(all, n) == AofCodecProofs.Whole(items, n)
    decreases |items|
  {
    hide AofCodec.EncodeItem;
    if items == [] {
      AofCodecProofs.NothingWhole(all);
    } else if n >= |AofCodec.EncodeItem(items[0])| {
      WholeMore(items[1..], all[1..], n - |AofCodec.EncodeItem(items[0])|);
    }
  }

  /** What is owed depends on the history fields alone. */
  lemma OwedSame(s: State, t: State)
    requires Logging(t) == Logging(s) && t.before == s.before && t.durable == s.durable && t.size == s.size
    requires Complete(t.fed, t.size) == Complete(s.fed, s.size)
    ensures Owed(t) == Owed(s)
  {
  }

  lemma FeedOn(s: State, calls: seq<Call>, m: Manifest)
    requires LogOk(s, m) && Balanced(calls, false) && s.mode.On? && Careful(s, FeedStep(calls))
    ensures LogOk(DoFeed(s, calls), m) && Complete(DoFeed(s, calls).fed, s.size) == Complete(s.fed, s.size)
  {
    hide RecoverWhole, Replay, DoFeed, Accounted, FedOk, Balanced, WritesOf, Complete, Enc, Careful;
    FeedExtends(s, calls);
    FeedFrame(s, calls);
    assert s.before + Replay(s.fed) + WritesOf(calls) == s.before + (Replay(s.fed) + WritesOf(calls));
  }

  lemma FeedWait(s: State, calls: seq<Call>, snap: seq<Write>)
    requires WaitOk(s, snap, TempIncr) && Balanced(calls, false) && s.mode.Wait? && !s.child.NoChild?
    requires Careful(s, FeedStep(calls))
    ensures WaitOk(DoFeed(s, calls), snap, TempIncr)
  {
    hide RecoverWhole, Replay, DoFeed, Accounted, FedOk, Balanced, WritesOf, Complete, Enc, Careful;
    FeedExtends(s, calls);
    FeedFrame(s, calls);
    assert snap + Replay(s.fed) + WritesOf(calls) == snap + (Replay(s.fed) + WritesOf(calls));
  }

  lemma FeedFrame(s: State, calls: seq<Call>)
    ensures var t := DoFeed(s, calls);
            t == s.(mem := s.mem + WritesOf(calls), selected := t.selected, buf := t.buf, fed := t.fed)
            && (s.mode.Off? || (s.mode.Wait? && s.child.NoChild?) ==> t.buf == s.buf && t.fed == s.fed)
  {
    hide Feed, Enc, WritesOf;
  }

  lemma FeedKeeps(s: State, calls: seq<Call>)
    requires s.phase.Idle? && Balanced(calls, false) && Careful(s, FeedStep(calls)) && Inv(s)
    ensures Inv(DoFeed(s, calls))
  {
    hide LogOk, WaitOk, Harmless, Owed, Recover, RecoverWhole, FilesOk, Ordered, Performed, Live, TempReady, Remembers,
      DoFeed, Balanced, Complete, PhaseOk;
    var t := DoFeed(s, calls);
    IdlePhase(s);
    IdlePhase(t);
    FeedFrame(s, calls);
    if s.mode.On? {
      FeedOn(s, calls, s.am);
      OwedSame(s, t);
    } else {
      OwedFrozen(s);
      OwedFrozen(t);
      if s.mode.Wait? && !s.child.NoChild? {
        FeedWait(s, calls, s.child.snap);
      } else if !s.child.NoChild? {
        HarmlessSame(s, t);
      }
    }
  }

  lemma OwedFrozen(s: State)
    requires !Logging(s)
    ensures Owed(s) == s.durable
  {
  }

  /** A careful flush keeps the account. */
  lemma FlushAccounted(s: State, n: nat, truncateOk: bool)
    requires LogOpen(s) && Accounted(s) && FedOk(s) && n <= |s.buf| && Careful(s, Flush(n, truncateOk))
    ensures var t := DoFlush(s, n, truncateOk);
            LogOpen(t) && Accounted(t) && FedOk(t) && IsTorn(OpenBytes(t))
  {
    hide AofFlush.Flushed, AofFlush.RollsBack, Enc, WellFed, InMulti, Cut, CutOk;
    var l, fed := OpenLog(s), Enc(s.fed) + Cut(s);
    var f := AofFlush.Flushed(l, n, truncateOk);
    if s.fd.append || s.fd.offset == s.size {
      AofFlush.FlushConserves(l, n, truncateOk, fed);
      AofFlush.FlushedOffset(l, n, truncateOk);
    } else {
      AofFlush.NothingStays(l, n, truncateOk);
    }
    var t := DoFlush(s, n, truncateOk);
    assert OpenLog(t) == f;
    EmptyStays(l, n, truncateOk);
    FlushCut(s, t);
    OpenLogLoads(t);
  }

  /** A flush that conserves the bytes does not change the piece of an annotation. */
  lemma FlushCut(s: State, t: State)
    requires LogOpen(s) && LogOpen(t) && WellFed(s.fed) && |OpenBytes(t)| == t.size && (s.buf == [] ==> t.buf == [])
    requires Accounted(s) && AofFlush.Conserved(OpenLog(t), Enc(s.fed) + Cut(s))
    ensures Cut(t) == Cut(s)
  {
    hide Enc, WellFed, LastLine, CutOk;
    AccountedBytes(s);
    assert OpenBytes(t)[..t.size] == OpenBytes(t);
    if t.buf == [] {
      assert OpenBytes(t) == Enc(s.fed) + Cut(s);
      WholeLines(s.fed);
      if s.buf == [] {
        assert OpenBytes(s) == OpenBytes(t);
      }
    }
  }

  lemma EmptyStays(l: AofFlush.Log, n: nat, truncateOk: bool)
    requires n <= |l.buf|
    ensures l.buf == [] ==> AofFlush.Flushed(l, n, truncateOk).buf == []
  {
  }

  /** Changing the open log only. */
  lemma OnlyLogChanges(s: State, t: State, m: Manifest)
    requires LogOk(s, m) && Ordered(m)
    requires t.fd.Open? && t.fd.name == s.fd.name && LogOpen(t) && Accounted(t) && FedOk(t)
    requires t.before == s.before && t.mem == s.mem && t.fed == s.fed
    requires forall f :: f != s.fd.name ==> Agree(f, s.files, t.files)
    ensures LogOk(t, m)
  {
    hide RecoverWhole, Accounted, FedOk, Ordered, Replay, Live, BeforeLast;
    LastNotBefore(m);
    RecoverWholeFrame(BeforeLast(m), s.files, t.files);
  }

  lemma FlushFiles(s: State, n: nat, truncateOk: bool)
    requires LogOpen(s) && FilesOk(s.files) && n <= |s.buf| && IsTorn(OpenBytes(DoFlush(s, n, truncateOk)))
    ensures FilesOk(DoFlush(s, n, truncateOk).files)
    ensures forall f :: f != s.fd.name ==> Agree(f, s.files, DoFlush(s, n, truncateOk).files)
  {
    hide IsTorn, AofFlush.Flushed;
  }

  lemma FlushFrame(s: State, n: nat, truncateOk: bool)
    ensures var t := DoFlush(s, n, truncateOk);
            && t == s.(files := t.files, fd := t.fd, size := t.size, buf := t.buf)
            && (LogOpen(s) ==> t.fd.Open? && t.fd.name == s.fd.name)
  {
    hide AofFlush.Flushed;
  }

  lemma FlushOn(s: State, n: nat, truncateOk: bool)
    requires s.phase.Idle? && s.mode.On? && LogOpen(s) && n <= |s.buf|
    requires Careful(s, Flush(n, truncateOk)) && Inv(s)
    ensures Inv(DoFlush(s, n, truncateOk))
  {
    hide LogOk, WaitOk, Harmless, Owed, Recover, RecoverWhole, FilesOk, Ordered, Performed, Live, TempReady,
      Remembers, DoFlush, IsTorn, Careful;
    var t := DoFlush(s, n, truncateOk);
    LogParts(s, s.am);
    FlushAccounted(s, n, truncateOk);
    FlushFiles(s, n, truncateOk);
    FlushFrame(s, n, truncateOk);
    OnlyLogChanges(s, t, s.am);
    OnRecovers(t);
    assert Agree(TempBase, s.files, t.files);
  }

  /** With the log on, what is recovered follows from the state of the log. */
  lemma OnRecovers(t: State)
    requires t.phase.Idle? && t.mode.On? && LogOk(t, t.am) && SameLive(t.disk, t.am)
    ensures Recover(t.disk, t.files) == Some(Owed(t))
  {
    hide LogOk, Recover, Complete, Settled, Replay, Live;
    OpenRecovers(t, t.am);
    RecoverSame(t.disk, t.am, t.files);
  }

  lemma LogParts(s: State, m: Manifest)
    requires LogOk(s, m)
    ensures m.incr != [] && LogOpen(s) && s.fd.name == LastName(m) && Accounted(s) && FedOk(s)
    ensures RecoverWhole(BeforeLast(m), s.files) == Some(s.before) && s.mem == s.before + Replay(s.fed)
  {
  }

  lemma FlushWait(s: State, n: nat, truncateOk: bool)
    requires s.phase.Idle? && s.mode.Wait? && !s.child.NoChild? && LogOpen(s) && n <= |s.buf|
    requires Careful(s, Flush(n, truncateOk)) && Inv(s)
    ensures Inv(DoFlush(s, n, truncateOk))
  {
    hide LogOk, Harmless, Owed, Recover, RecoverWhole, FilesOk, Ordered, Performed, Live, TempReady, Remembers,
      DoFlush, IsTorn, Careful, Accounted, FedOk, Replay;
    var t := DoFlush(s, n, truncateOk);
    FlushAccounted(s, n, truncateOk);
    FlushFiles(s, n, truncateOk);
    FlushFrame(s, n, truncateOk);
    assert Agree(TempBase, s.files, t.files);
    NotLive(s.disk, TempIncr);
    RecoverFrame(s.disk, s.files, t.files);
    OwedFrozen(s);
    OwedFrozen(t);
  }

  /** With nothing in the buffer a flush does nothing. */
  lemma FlushNothing(s: State, n: nat, truncateOk: bool)
    requires s.buf == []
    ensures DoFlush(s, n, truncateOk) == s
  {
    if LogOpen(s) && n == 0 {
      AofFlush.NothingWritten(OpenLog(s));
      assert s.files[s.fd.name := s.files[s.fd.name]] == s.files;
    }
  }

  lemma FlushKeeps(s: State, n: nat, truncateOk: bool)
    requires s.phase.Idle? && LogOpen(s) && n <= |s.buf|
    requires Careful(s, Flush(n, truncateOk)) && Inv(s)
    ensures Inv(DoFlush(s, n, truncateOk))
  {
    hide LogOk, WaitOk, Harmless, Owed, Recover, RecoverWhole, FilesOk, Ordered, Performed, Live, TempReady, Remembers,
      DoFlush, PhaseOk;
    IdlePhase(s);
    if s.mode.On? {
      FlushOn(s, n, truncateOk);
    } else if s.mode.Wait? && !s.child.NoChild? {
      FlushWait(s, n, truncateOk);
    } else {
      FlushNothing(s, n, truncateOk);
    }
  }

  // ----- steps that leave the files alone -----

  lemma ForgetDbKeeps(s: State)
    requires s.phase.Idle? && Inv(s)
    ensures Inv(s.(selected := -1))
  {
    hide LogOk, WaitOk, Harmless, Owed, Recover, RecoverWhole, FilesOk, Ordered, Performed, Live, TempReady, Remembers,
      PhaseOk;
    var t := s.(selected := -1);
    IdlePhase(s);
    IdlePhase(t);
    OwedSame(s, t);
    match s.mode
    case On => LogFrame(s, t, s.am);
    case Wait =>
      if !s.child.NoChild? {
        WaitFrame(s, t, s.child.snap, TempIncr);
      }
    case Off =>
      if !s.child.NoChild? {
        HarmlessSame(s, t);
      }
  }

  /** Switching the deletion of the history on and off. */
  lemma CollectionKeeps(s: State, gc: bool, phase: Phase)
    requires (s.phase.Idle? || s.phase.Collecting?) && (phase.Idle? || phase.Collecting?) && Inv(s)
    ensures Inv(s.(gc := gc, phase := phase))
  {
    hide LogOk, WaitOk, Harmless, Owed, Recover, RecoverWhole, FilesOk, Ordered, Performed, Live, TempReady, Remembers,
      PhaseOk;
    var t := s.(gc := gc, phase := phase);
    IdlePhase(s);
    IdlePhase(t);
    OwedSame(s, t);
    match s.mode
    case On => LogFrame(s, t, s.am);
    case Wait =>
      if !s.child.NoChild? {
        WaitFrame(s, t, s.child.snap, TempIncr);
      }
    case Off =>
      if !s.child.NoChild? {
        HarmlessSame(s, t);
      }
  }

  lemma StartLaterKeeps(s: State)
    requires s.phase.Idle? && s.mode.Off? && s.child.NoChild? && Inv(s)
    ensures Inv(s.(mode := Wait))
  {
    hide LogOk, WaitOk, Harmless, Owed, Recover, RecoverWhole, FilesOk, Ordered, Performed, Live, TempReady, Remembers,
      PhaseOk;
    IdlePhase(s);
    IdlePhase(s.(mode := Wait));
    OwedFrozen(s);
    OwedFrozen(s.(mode := Wait));
  }

  lemma SkipIncrKeeps(s: State)
    requires s.phase.Idle? && s.mode.Off? && s.child.NoChild? && Harmless(s) && Inv(s)
    ensures Inv(s.(phase := ReadyToFork(false)))
  {
    hide LogOk, WaitOk, Harmless, Owed, Recover, RecoverWhole, FilesOk, Ordered, Performed, Live, TempReady, Remembers,
      PhaseOk;
    var t := s.(phase := ReadyToFork(false));
    IdlePhase(s);
    ForkPhase(t);
    OwedFrozen(s);
    OwedFrozen(t);
    HarmlessSame(s, t);
  }

  lemma HarmlessSame(s: State, t: State)
    requires Harmless(s) && t.fd == s.fd && t.am == s.am && t.files == s.files
    ensures Harmless(t)
  {
  }

  lemma PersistIncrFailsKeeps(s: State)
    requires s.phase.Creating? && Inv(s)
    ensures Inv(s.(phase := Idle))
  {
    hide LogOk, WaitOk, Harmless, Owed, Recover, RecoverWhole, FilesOk, Ordered, Performed, Live, TempReady, Remembers,
      PhaseOk;
    var t := s.(phase := Idle);
    CreatingPhase(s);
    IdlePhase(t);
    LogFrame(s, t, s.am);
    OwedSame(s, t);
  }

  lemma ForkFailsKeeps(s: State)
    requires s.phase.ReadyToFork? && Inv(s)
    ensures Inv(DoForkFails(s))
  {
    hide LogOk, WaitOk, Harmless, Owed, Recover, RecoverWhole, FilesOk, Ordered, Performed, Live, TempReady, Remembers,
      PhaseOk;
    var t := DoForkFails(s);
    ForkPhase(s);
    IdlePhase(t);
    if s.mode.On? {
      LogFrame(s, t, s.am);
      OwedSame(s, t);
    } else {
      OwedFrozen(s);
      OwedFrozen(t);
      if s.mode.Wait? {
        TempEmpty(s);
      }
    }
  }

  lemma TempEmpty(s: State)
    requires TempReady(s)
    ensures s.buf == []
  {
  }

  lemma FinishHandlerKeeps(s: State)
    requires s.phase.Deleting? && (s.gc ==> s.am.history == []) && Inv(s)
    ensures Inv(DoFinishHandler(s))
  {
    hide LogOk, WaitOk, Harmless, Owed, Recover, RecoverWhole, FilesOk, Ordered, Performed, Live, TempReady, PhaseOk;
    var t := DoFinishHandler(s);
    KeptPhase(s);
    IdlePhase(t);
    OwedSame(s, t);
    if !s.mode.Off? {
      LogFrame(s, t, s.am);
    }
  }

  lemma InstallKeeps(s: State)
    requires s.phase.Committed? && Inv(s)
    ensures Inv(DoInstall(s))
  {
    hide LogOk, WaitOk, Harmless, Owed, Recover, RecoverWhole, FilesOk, Ordered, Performed, Live, TempReady, Remembers,
      IdleOk, BootingOk, CreatingOk, ForkOk, RenamedOk, BaseReady, NewBase, NewIncr, PhaseOk;
    var t := DoInstall(s);
    KeptPhase(s);
    KeptPhase(t);
    OwedSame(s, t);
    if !s.mode.Off? {
      LogFrame(s, t, t.am);
    }
  }

  /** The snapshot is taken when the new log is still empty. */
  lemma ForkKeeps(s: State)
    requires s.phase.ReadyToFork? && Inv(s)
    ensures Inv(DoFork(s))
  {
    hide LogOk, WaitOk, Harmless, Owed, Recover, RecoverWhole, FilesOk, Ordered, Performed, Live, TempReady, Remembers,
      PhaseOk;
    var t := DoFork(s);
    ForkPhase(s);
    IdlePhase(t);
    match s.mode
    case On =>
      NothingFed(s);
      LogFrame(s, t, s.am);
      OwedSame(s, t);
    case Wait =>
      TempWaits(s);
      OwedFrozen(s);
      OwedFrozen(t);
    case Off =>
      OwedFrozen(s);
      OwedFrozen(t);
      HarmlessSame(s, t);
  }

  lemma TempAccounted(s: State)
    requires TempReady(s)
    ensures LogOpen(s) && Accounted(s) && FedOk(s)
  {
    hide Enc, WellFed, InMulti, LastLine, CutOk;
    EmptyLog();
    NoCut();
    assert OpenBytes(s) == [];
    assert Enc(s.fed) + Cut(s) == [];
  }

  lemma NoCut()
    ensures LastLine([]) == [] && CutOk([])
  {
  }

  lemma TempWaits(s: State)
    requires TempReady(s)
    ensures WaitOk(DoFork(s), s.mem, TempIncr)
  {
    hide Enc, WellFed, InMulti, Replay;
    TempAccounted(DoFork(s));
    EmptyLog();
    assert s.mem + [] == s.mem;
  }

  lemma NothingFed(s: State)
    requires LogOk(s, s.am) && s.fed == []
    ensures s.mem == s.before
  {
    hide RecoverWhole, Accounted, FedOk, Replay;
    EmptyLog();
  }

  lemma PersistKeeps(s: State)
    requires (s.phase.Idle? || s.phase.Deleting? || s.phase.Collecting?) && Inv(s)
    ensures Inv(s.(disk := s.am))
  {
    hide LogOk, WaitOk, Harmless, Owed, Recover, RecoverWhole, FilesOk, Ordered, Performed, Live, TempReady, Remembers,
      PhaseOk;
    var t := s.(disk := s.am);
    IdlePhase(s);
    KeptPhase(s);
    IdlePhase(t);
    KeptPhase(t);
    RecoverSame(s.disk, s.am, s.files);
    OwedSame(s, t);
    match s.mode
    case On => LogFrame(s, t, s.am);
    case Wait =>
      if s.phase.Deleting? {
        LogFrame(s, t, s.am);
      } else if !s.child.NoChild? {
        WaitFrame(s, t, s.child.snap, TempIncr);
      }
    case Off =>
      if !s.child.NoChild? {
        HarmlessSame(s, t);
      }
  }

  lemma BootPersistKeeps(s: State)
    requires s.phase.BootOpened? && Inv(s)
    ensures Inv(s.(disk := s.am, phase := Deleting))
  {
    hide LogOk, WaitOk, Harmless, Owed, Recover, RecoverWhole, FilesOk, Ordered, Performed, Live, TempReady, Remembers,
      Complete, Settled, Replay, PhaseOk;
    var t := s.(disk := s.am, phase := Deleting);
    KeptPhase(s);
    KeptPhase(t);
    OpenRecovers(s, s.am);
    OwedOn(s);
    OwedSame(s, t);
    LogFrame(s, t, s.am);
  }

  lemma OwedOn(s: State)
    requires Logging(s)
    ensures Owed(s) == s.before + Replay(Settled(Complete(s.fed, s.size)))
  {
  }

  lemma StopAofKeeps(s: State)
    requires s.phase.Idle? && Inv(s)
    ensures Inv(DoStopAof(s))
  {
    hide LogOk, WaitOk, Harmless, Owed, Recover, RecoverWhole, FilesOk, Ordered, Performed, Live, TempReady, Remembers,
      PhaseOk;
    IdlePhase(s);
    IdlePhase(DoStopAof(s));
    OwedFrozen(DoStopAof(s));
  }

  // ----- changes to other files -----

  /** A change that touches no file of `m` and nothing of the log but the selected database. */
  lemma LogFrame(s: State, t: State, m: Manifest)
    requires LogOk(s, m)
    requires t.fd == s.fd && t.size == s.size && t.buf == s.buf && t.before == s.before && t.fed == s.fed
             && t.mem == s.mem
    requires t.selected == s.selected || t.selected == -1
    requires forall f :: f in Live(m) ==> Agree(f, s.files, t.files)
    ensures LogOk(t, m)
  {
    hide RecoverWhole, AofFlush.Conserved, Enc, WellFed, InMulti, Replay, Live, DbAfter, BeforeLast;
    LiveNames(m);
    assert Agree(s.fd.name, s.files, t.files);
    RecoverWholeFrame(BeforeLast(m), s.files, t.files);
  }

  lemma WaitFrame(s: State, t: State, snap: seq<Write>, name: FileName)
    requires WaitOk(s, snap, name)
    requires t.fd == s.fd && t.size == s.size && t.buf == s.buf && t.fed == s.fed && t.mem == s.mem
    requires t.selected == s.selected || t.selected == -1
    requires Agree(name, s.files, t.files)
    ensures WaitOk(t, snap, name)
  {
    hide AofFlush.Conserved, Enc, WellFed, InMulti, Replay, DbAfter;
  }

  lemma HarmlessFrame(s: State, t: State)
    requires Harmless(s) && t.fd == s.fd && SameLive(s.am, t.am)
    requires forall f :: f in Live(s.am) ==> Agree(f, s.files, t.files)
    ensures Harmless(t)
  {
    hide Performed, Live;
    LiveNames(s.am);
    if s.am.incr != [] {
      assert Agree(LastName(s.am), s.files, t.files);
    }
  }

  lemma PutLog(files: Files, f: FileName)
    requires FilesOk(files) && !f.BaseFile? && !f.TempBase?
    ensures FilesOk(files[f := Log([])])
  {
    hide IsTorn;
    EmptyLog();
  }

  lemma PutSnapshot(files: Files, f: FileName, snap: seq<Write>)
    requires FilesOk(files) && (f.BaseFile? || f.TempBase?)
    ensures FilesOk(files[f := Snapshot(snap)])
  {
    hide IsTorn;
  }

  lemma DropFiles(files: Files, dropped: set<FileName>)
    requires FilesOk(files)
    ensures FilesOk(files - dropped)
  {
    hide IsTorn;
  }

  lemma MoveFile(files: Files, from: FileName, to: FileName)
    requires FilesOk(files) && from in files && (from.BaseFile? || from.TempBase? <==> to.BaseFile? || to.TempBase?)
    ensures FilesOk((files - {from})[to := files[from]])
  {
    hide IsTorn;
  }

  // ----- opening a new INCR file -----

  lemma NewIncrNotLive(m: Manifest)
    requires Ordered(m)
    ensures IncrFile(m.incrSeq + 1) !in Live(m)
  {
    SeqBound(m);
    NotLive(m, IncrFile(m.incrSeq + 1));
  }

  lemma NewBaseNotLive(m: Manifest)
    requires Ordered(m)
    ensures BaseFile(m.baseSeq + 1) !in Live(m)
  {
    NotLive(m, BaseFile(m.baseSeq + 1));
  }

  lemma NewNames(m: Manifest)
    ensures NewBase(m).base == Some(NewBase(m).baseSeq) && NewBase(m).incr == m.incr
    ensures NewBase(m).baseSeq == m.baseSeq + 1 && NewBase(m).incrSeq == m.incrSeq
    ensures NewIncr(m).base == m.base && NewIncr(m).baseSeq == m.baseSeq && NewIncr(m).incrSeq == m.incrSeq + 1
    ensures NewIncr(m).incr != [] && LastName(NewIncr(m)) == IncrFile(NewIncr(m).incrSeq)
    ensures SameLive(BeforeLast(NewIncr(m)), m)
  {
  }

  lemma CreateIncrKeeps(s: State)
    requires s.phase.Idle? && s.mode.On? && s.child.NoChild? && s.buf == [] && Inv(s)
    ensures Inv(DoCreateIncr(s))
  {
    hide LogOk, WaitOk, Harmless, Owed, Recover, RecoverWhole, FilesOk, Ordered, Performed, Live, TempReady, Remembers,
      PhaseOk;
    var t := DoCreateIncr(s);
    IdlePhase(s);
    CreatingPhase(t);
    NewIncrNotLive(s.am);
    PutLog(s.files, IncrFile(s.am.incrSeq + 1));
    RecoverSame(s.disk, s.am, s.files);
    RecoverFrame(s.disk, s.files, t.files);
    LogFrame(s, t, s.am);
    OwedSame(s, t);
  }

  lemma PersistIncrKeeps(s: State)
    requires s.phase.Creating? && Inv(s)
    ensures Inv(DoPersistIncr(s))
  {
    hide LogOk, WaitOk, Harmless, Owed, Recover, RecoverWhole, FilesOk, Ordered, Performed, Live, TempReady, Remembers,
      Replay, Accounted, FedOk, SameLive, PhaseOk;
    var t := DoPersistIncr(s);
    CreatingPhase(s);
    CreatingPhase(t);
    LogParts(s, s.am);
    LogHasBase(s.am);
    NewIncrWellFormed(s.am) by { assert WellFormed(s.am); }
    OpenRecovers(s, s.am);
    OwedAll(s);
    RecoverNewIncr(s.am, s.files);
    LogFrame(s, t, s.am);
    OwedSame(s, t);
  }

  /** With an empty buffer everything is owed. */
  lemma OwedAll(s: State)
    requires Logging(s) && LogOpen(s) && Accounted(s) && FedOk(s) && s.buf == [] && s.mem == s.before + Replay(s.fed)
    ensures Owed(s) == s.mem
  {
    hide Accounted, FedOk, Complete, Settled, Replay;
    SettledAll(s);
  }

  lemma LogHasBase(m: Manifest)
    requires Ordered(m) && m.incr != []
    ensures m.base.Some?
  {
  }

  lemma SwitchIncrKeeps(s: State)
    requires s.phase.Created? && Inv(s)
    ensures Inv(DoSwitchIncr(s))
  {
    hide LogOk, WaitOk, Harmless, Owed, Recover, RecoverWhole, FilesOk, Ordered, Performed, Live, TempReady, Remembers,
      Replay, NewIncr, Accounted, FedOk, PhaseOk;
    var t := DoSwitchIncr(s);
    CreatingPhase(s);
    ForkPhase(t);
    NewNames(s.am);
    LogParts(s, s.am);
    LogHasBase(s.am);
    OpenRecovers(s, s.am);
    OwedAll(s);
    NewIncrWellFormed(s.am) by { assert WellFormed(s.am); }
    RecoverSame(BeforeLast(t.am), s.am, s.files);
    FreshLog(t, t.am);
    LogParts(t, t.am);
    OwedAll(t);
  }

  /** A log that has just been opened, empty. */
  lemma FreshLog(t: State, m: Manifest)
    requires m.incr != [] && t.fd == Open(LastName(m), false, 0) && LastName(m) in t.files
             && t.files[LastName(m)] == Log([])
    requires t.buf == [] && t.size == 0 && t.fed == [] && t.selected == -1 && t.mem == t.before
    requires RecoverWhole(BeforeLast(m), t.files) == Some(t.before)
    ensures LogOk(t, m)
  {
    hide Enc, RecoverWhole, WellFed, InMulti, Replay;
    EmptyLog();
    assert t.before + [] == t.before;
  }

  lemma OpenTempKeeps(s: State, starting: bool)
    requires s.phase.Idle? && Inv(s) && if starting then s.mode.Off? else s.mode.Wait? && s.child.NoChild?
    ensures Inv(OpenTemp(s.(mode := Wait, child := NoChild), starting))
  {
    hide LogOk, WaitOk, Harmless, Owed, Recover, RecoverWhole, FilesOk, Ordered, Performed, Live, Remembers, PhaseOk;
    var t := OpenTemp(s.(mode := Wait, child := NoChild), starting);
    IdlePhase(s);
    ForkPhase(t);
    NotLive(s.disk, TempIncr);
    PutLog(s.files, TempIncr);
    RecoverFrame(s.disk, s.files, t.files);
    OwedFrozen(s);
    OwedFrozen(t);
  }

  // ----- the child -----

  lemma ChildWritesKeeps(s: State)
    requires s.child.Running? && Inv(s)
    ensures Inv(DoChildWrites(s))
  {
    hide LogOk, WaitOk, Harmless, Owed, Recover, RecoverWhole, FilesOk, Ordered, Performed, Live, TempReady, Remembers,
      PhaseOk;
    var t := DoChildWrites(s);
    IdlePhase(s);
    IdlePhase(t);
    NotLive(s.disk, TempBase);
    PutSnapshot(s.files, TempBase, s.child.snap);
    RecoverSame(s.disk, s.am, s.files);
    RecoverFrame(s.disk, s.files, t.files);
    OwedSame(s, t);
    match s.mode
    case On => LogFrame(s, t, s.am);
    case Wait => WaitFrame(s, t, s.child.snap, TempIncr);
    case Off => HarmlessFrame(s, t);
  }

  // ----- the clean-up after a failure -----

  /** Dropping files that are not live, back to idle without a child. */
  lemma CleanUpKeeps(s: State, t: State, dropped: set<FileName>)
    requires WellFormed(s.am) && Ordered(s.disk) && FilesOk(s.files) && SameLive(s.disk, s.am)
    requires Recover(s.disk, s.files) == Some(Owed(s))
    requires forall f :: f in dropped ==> f !in Live(s.am)
    requires t.files == s.files - dropped && t.am == s.am && t.disk == s.disk
    requires t.phase == Idle && t.child == NoChild && t.mode == s.mode && Owed(t) == Owed(s)
    requires match t.mode
             case On => LogOk(s, s.am) && t == s.(files := t.files, phase := Idle, child := NoChild)
             case Wait => t.buf == []
             case Off => t.buf == []
    ensures Inv(t)
  {
    hide LogOk, WaitOk, Harmless, Owed, Recover, RecoverWhole, FilesOk, Ordered, Performed, Live, TempReady, Remembers,
      PhaseOk;
    IdlePhase(t);
    DropFiles(s.files, dropped);
    RecoverSame(s.disk, s.am, s.files);
    RecoverFrame(s.disk, s.files, t.files);
    if t.mode.On? {
      LogFrame(s, t, s.am);
    }
  }

  lemma ChildFailsKeeps(s: State)
    requires s.phase.Idle? && !s.child.NoChild? && Inv(s)
    ensures Inv(CleanUp(s))
  {
    hide LogOk, WaitOk, Harmless, Owed, Recover, RecoverWhole, FilesOk, Ordered, Performed, Live, TempReady, Remembers,
      PhaseOk;
    IdlePhase(s);
    var t := CleanUp(s);
    var dropped := if s.mode.Wait? then {TempIncr} else {};
    NotLive(s.am, TempIncr);
    assert t.files == s.files - dropped;
    OwedSame(s, t);
    CleanUpKeeps(s, t, dropped);
  }

  lemma RenameIncrFailsKeeps(s: State)
    requires s.phase.BaseRenamed? && s.mode.Wait? && Inv(s)
    ensures Inv(CleanUp(s.(files := s.files - {BaseFile(Rewrite(s).0.baseSeq)})))
  {
    hide LogOk, WaitOk, Harmless, Owed, Recover, RecoverWhole, FilesOk, Ordered, Performed, Live, TempReady, Remembers,
      PhaseOk;
    RenamedPhase(s);
    var t := CleanUp(s.(files := s.files - {BaseFile(Rewrite(s).0.baseSeq)}));
    NewBaseNotLive(s.am);
    NotLive(s.am, TempIncr);
    var dropped := {BaseFile(s.am.baseSeq + 1), TempIncr};
    assert t.files == s.files - dropped;
    OwedSame(s, t);
    CleanUpKeeps(s, t, dropped);
  }

  lemma CommitFailsOnOff(s: State)
    requires !s.mode.Wait? && s.phase.BaseRenamed? && Inv(s)
    ensures Inv(DoCommitFails(s))
  {
    hide LogOk, WaitOk, Harmless, Owed, Recover, RecoverWhole, FilesOk, Ordered, Performed, Live, TempReady, Remembers,
      PhaseOk;
    RenamedPhase(s);
    var t := DoCommitFails(s);
    NewBaseNotLive(s.am);
    var base := BaseFile(s.am.baseSeq + 1);
    assert t.files == s.files - {base};
    if s.mode.On? {
      LogParts(s, s.am);
    }
    OwedSame(s, t);
    CleanUpKeeps(s, t, {base});
  }

  lemma CommitFailsWait(s: State)
    requires s.mode.Wait? && s.phase.IncrRenamed? && Inv(s)
    ensures Inv(DoCommitFails(s))
  {
    hide LogOk, WaitOk, Harmless, Owed, Recover, RecoverWhole, FilesOk, Ordered, Performed, Live, TempReady, Remembers,
      NewIncr, NewBase, PhaseOk;
    IncrRenamedPhase(s);
    var t := DoCommitFails(s);
    NewNames(s.am);
    NewNames(NewBase(s.am));
    NewBaseNotLive(s.am);
    NewIncrNotLive(s.am);
    NotLive(s.am, TempIncr);
    var dropped := {BaseFile(s.am.baseSeq + 1), IncrFile(s.am.incrSeq + 1), TempIncr};
    assert t.files == s.files - dropped;
    OwedSame(s, t);
    CleanUpKeeps(s, t, dropped);
  }

  lemma CommitFailsKeeps(s: State)
    requires (if s.mode.Wait? then s.phase.IncrRenamed? else s.phase.BaseRenamed?) && Inv(s)
    ensures Inv(DoCommitFails(s))
  {
    hide Inv, DoCommitFails;
    if s.mode.Wait? {
      CommitFailsWait(s);
    } else {
      CommitFailsOnOff(s);
    }
  }

  // ----- the handler of a finished rewrite -----

  lemma RenamedFrame(s: State)
    requires s.child.Finished? && TempBase in s.files && s.files[TempBase] == Snapshot(s.child.snap)
    ensures var t := DoRenameBase(s);
            && t == s.(files := t.files, phase := BaseRenamed(NewBase(s.am), s.child.snap), child := NoChild)
            && BaseReady(t, NewBase(s.am), s.child.snap)
            && forall f :: f != TempBase && f != BaseFile(s.am.baseSeq + 1) ==> Agree(f, s.files, t.files)
  {
  }

  lemma RenameBaseKeeps(s: State)
    requires s.phase.Idle? && s.child.Finished? && TempBase in s.files && Inv(s)
    ensures Inv(DoRenameBase(s))
  {
    hide LogOk, WaitOk, Harmless, Owed, Recover, RecoverWhole, FilesOk, Ordered, Performed, Live, TempReady, Remembers,
      DoRenameBase, NewBase, BaseReady, PhaseOk;
    var t := DoRenameBase(s);
    IdlePhase(s);
    RenamedFrame(s);
    RenamedPhase(t);
    NewBaseNotLive(s.am);
    NotLive(s.am, TempBase);
    RenamedFiles(s);
    RecoverSame(s.disk, s.am, s.files);
    RecoverFrame(s.disk, s.files, t.files);
    OwedSame(s, t);
    match s.mode
    case On => LogFrame(s, t, s.am);
    case Wait => WaitFrame(s, t, s.child.snap, TempIncr);
    case Off => HarmlessFrame(s, t);
  }

  lemma RenamedFiles(s: State)
    requires s.child.Finished? && TempBase in s.files && FilesOk(s.files)
    ensures FilesOk(DoRenameBase(s).files)
  {
    hide FilesOk;
    MoveFile(s.files, TempBase, BaseFile(s.am.baseSeq + 1));
  }

  lemma RenameIncrKeeps(s: State)
    requires s.phase.BaseRenamed? && s.mode.Wait? && TempIncr in s.files && Inv(s)
    ensures Inv(DoRenameIncr(s))
  {
    hide LogOk, WaitOk, Harmless, Owed, Recover, RecoverWhole, FilesOk, Ordered, Performed, Live, TempReady, Remembers,
      NewIncr, NewBase, Accounted, FedOk, PhaseOk;
    var t := DoRenameIncr(s);
    var name := IncrFile(s.am.incrSeq + 1);
    RenamedPhase(s);
    IncrRenamedPhase(t);
    NewNames(s.am);
    NewNames(NewBase(s.am));
    NewIncrNotLive(s.am);
    NotLive(s.am, TempIncr);
    MoveFile(s.files, TempIncr, name);
    RecoverSame(s.disk, s.am, s.files);
    RecoverFrame(s.disk, s.files, t.files);
    OwedFrozen(s);
    OwedFrozen(t);
    WaitParts(s, s.phase.snap, TempIncr);
    WaitMoves(s, t, s.phase.snap, name);
  }

  lemma WaitParts(s: State, snap: seq<Write>, name: FileName)
    requires WaitOk(s, snap, name)
    ensures LogOpen(s) && s.fd.name == name && Accounted(s) && FedOk(s) && s.mem == snap + Replay(s.fed)
  {
  }

  /** The open log under another name. */
  lemma WaitMoves(s: State, t: State, snap: seq<Write>, name: FileName)
    requires WaitOk(s, snap, TempIncr) && TempIncr in s.files
    requires t == s.(files := t.files, fd := s.fd.(name := name), phase := t.phase)
    requires name in t.files && t.files[name] == s.files[TempIncr]
    ensures WaitOk(t, snap, name)
  {
    hide AofFlush.Conserved, Enc, WellFed, InMulti, Replay, DbAfter;
  }

  /** The commit point: one new BASE, and of the INCR files only the one being written. */
  lemma CommittedManifest(m: Manifest, logOpen: bool)
    requires WellFormed(m) && m.base.Some?
    ensures var r := MarkRewritten(m, logOpen);
            && WellFormed(r) && r.base == m.base
            && r.incr == if logOpen && m.incr != [] then [m.incr[|m.incr| - 1]] else []
  {
    MarkRewrittenWellFormed(m, logOpen);
  }

  lemma BaseAlone(m: Manifest, files: Files, snap: seq<Write>)
    requires m.base.Some? && m.incr == []
    requires BaseFile(m.base.value) in files && files[BaseFile(m.base.value)] == Snapshot(snap)
    ensures RecoverWhole(m, files) == Some(snap) && Recover(m, files) == Some(snap)
  {
    assert snap + [] == snap;
  }

  lemma CommittedInv(t: State)
    requires HistoryOk(t) && WellFormed(t.disk) && FilesOk(t.files) && Recover(t.disk, t.files) == Some(Owed(t))
    requires t.phase == Committed(t.disk) && t.child == NoChild && KeptOk(t, t.disk)
    ensures Inv(t)
  {
    hide LogOk, Recover, Owed, FilesOk, Ordered, Remembers;
  }

  /** Behind the new BASE the open log goes on. */
  lemma CommitLog(s: State, t: State, m: Manifest, snap: seq<Write>)
    requires Accounted(s) && FedOk(s) && s.mem == snap + Replay(s.fed) && !s.mode.Off?
    requires m.base.Some? && |m.incr| == 1 && s.fd.name == LastName(m)
    requires BaseFile(m.base.value) in s.files && s.files[BaseFile(m.base.value)] == Snapshot(snap)
    requires t == s.(disk := m, phase := Committed(m), before := snap)
    ensures LogOk(t, m) && Recover(m, t.files) == Some(Owed(t))
  {
    hide Recover, RecoverWhole, Complete, Settled, Replay, Enc, WellFed, InMulti, AofFlush.Conserved, DbAfter;
    BaseAlone(BeforeLast(m), t.files, snap);
    OpenRecovers(t, m);
  }

  lemma CommitOn(s: State)
    requires s.mode.On? && s.phase.BaseRenamed? && Inv(s)
    ensures Inv(DoCommit(s))
  {
    hide LogOk, WaitOk, Harmless, Owed, Recover, RecoverWhole, FilesOk, Ordered, Performed, Live, TempReady, Remembers,
      MarkRewritten, NewBase, Accounted, FedOk, Replay, PhaseOk;
    RenamedPhase(s);
    var t := DoCommit(s);
    NewBaseWellFormed(s.am) by { assert WellFormed(s.am); }
    NewNames(s.am);
    CommittedManifest(s.phase.temp, true);
    LogParts(s, s.am);
    CommitLog(s, t, t.disk, s.phase.snap);
    CommittedInv(t);
  }

  lemma CommitWait(s: State)
    requires s.mode.Wait? && s.phase.IncrRenamed? && Inv(s)
    ensures Inv(DoCommit(s))
  {
    hide LogOk, Harmless, Owed, Recover, RecoverWhole, FilesOk, Ordered, Performed, Live, TempReady, Remembers,
      MarkRewritten, NewBase, NewIncr, Accounted, FedOk, Replay, PhaseOk;
    IncrRenamedPhase(s);
    var t := DoCommit(s);
    NewBaseWellFormed(s.am) by { assert WellFormed(s.am); }
    NewNames(s.am);
    NewIncrWellFormed(NewBase(s.am));
    NewNames(NewBase(s.am));
    CommittedManifest(s.phase.temp, true);
    CommitLog(s, t, t.disk, s.phase.snap);
    CommittedInv(t);
  }

  /** The last file of a manifest that can be recovered. */
  lemma LastUsable(m: Manifest, files: Files)
    requires m.incr != [] && Recover(m, files).Some?
    ensures LastName(m) in files && files[LastName(m)].Log? && Usable(files[LastName(m)].bytes)
    ensures RecoverWhole(BeforeLast(m), files).Some?
    ensures Recover(m, files).value
            == RecoverWhole(BeforeLast(m), files).value + Performed(files[LastName(m)].bytes)
  {
    hide RecoverWhole, Usable, Performed;
  }

  /** A snapshot and one INCR file behind it. */
  lemma BaseAndLast(m: Manifest, files: Files, snap: seq<Write>)
    requires m.base.Some? && BaseFile(m.base.value) in files && files[BaseFile(m.base.value)] == Snapshot(snap)
    requires |m.incr| == 1 && LastName(m) in files && files[LastName(m)].Log? && Usable(files[LastName(m)].bytes)
    ensures Recover(m, files) == Some(snap + Performed(files[LastName(m)].bytes))
  {
    hide RecoverWhole, Usable, Performed;
    BaseAlone(BeforeLast(m), files, snap);
  }

  lemma CommitOff(s: State)
    requires s.mode.Off? && s.phase.BaseRenamed? && Inv(s)
    ensures Inv(DoCommit(s))
  {
    hide LogOk, WaitOk, Owed, Recover, RecoverWhole, FilesOk, Ordered, Performed, Live, TempReady, Remembers,
      MarkRewritten, NewBase, Usable, PhaseOk;
    RenamedPhase(s);
    var t := DoCommit(s);
    NewBaseWellFormed(s.am) by { assert WellFormed(s.am); }
    NewNames(s.am);
    var logOpen := !s.fd.Closed?;
    CommittedManifest(s.phase.temp, logOpen);
    if logOpen && s.am.incr != [] {
      RecoverSame(s.disk, s.am, s.files);
      LastUsable(s.am, s.files);
      BaseAndLast(t.disk, t.files, s.phase.snap);
      assert s.phase.snap + [] == s.phase.snap;
    } else {
      BaseAlone(t.disk, t.files, s.phase.snap);
    }
    OwedFrozen(t);
    CommittedInv(t);
  }

  lemma CommitKeeps(s: State)
    requires (if s.mode.Wait? then s.phase.IncrRenamed? else s.phase.BaseRenamed?) && Inv(s)
    ensures Inv(DoCommit(s))
  {
    hide Inv, DoCommit;
    match s.mode
    case On => CommitOn(s);
    case Off => CommitOff(s);
    case Wait => CommitWait(s);
  }

  lemma DropHistory(m: Manifest)
    requires Ordered(m) && m.history != []
    ensures var r := m.(history := m.history[1..]);
            Ordered(r) && (Remembers(m) ==> Remembers(r)) && Retired(m, m.history[0])
  {
    var r := m.(history := m.history[1..]);
    forall f | f in r.history
      ensures f in m.history && Retired(r, f)
    {
    }
  }

  lemma RetiredNotLive(m: Manifest, f: FileName)
    requires Ordered(m) && Retired(m, f)
    ensures f !in Live(m) && !f.TempBase? && !f.TempIncr?
  {
    NotLive(m, f);
  }

  lemma DeleteHistoryKeeps(s: State)
    requires (s.phase.Deleting? || s.phase.Collecting?) && s.am.history != [] && Inv(s)
    ensures Inv(DoDeleteHistory(s))
  {
    hide LogOk, WaitOk, Harmless, Owed, Recover, RecoverWhole, FilesOk, Ordered, Performed, Live, TempReady, Remembers,
      Retired, PhaseOk;
    var t := DoDeleteHistory(s);
    IdlePhase(s);
    KeptPhase(s);
    IdlePhase(t);
    KeptPhase(t);
    DropHistory(s.am);
    RetiredNotLive(s.am, s.am.history[0]);
    DropFiles(s.files, {s.am.history[0]});
    RecoverSame(s.disk, s.am, s.files);
    RecoverSame(s.am, t.am, s.files);
    RecoverFrame(s.disk, s.files, t.files);
    OwedSame(s, t);
    match s.mode
    case On => LogFrame(s, t, s.am); LogOkSame(t, s.am, t.am);
    case Wait =>
      if s.phase.Deleting? {
        LogFrame(s, t, s.am);
        LogOkSame(t, s.am, t.am);
      } else if !s.child.NoChild? {
        WaitFrame(s, t, s.child.snap, TempIncr);
      }
    case Off =>
      if !s.child.NoChild? {
        HarmlessFrame(s, t);
      }
  }

  lemma LogOkSame(s: State, a: Manifest, b: Manifest)
    requires LogOk(s, a) && SameLive(a, b)
    ensures LogOk(s, b)
  {
    hide RecoverWhole, Accounted, FedOk;
    RecoverSame(BeforeLast(a), BeforeLast(b), s.files);
  }

  // ----- starting up -----

  lemma BootInv(t: State)
    requires HistoryOk(t) && Ordered(t.disk) && FilesOk(t.files) && Recover(t.disk, t.files) == Some(Owed(t))
    requires t.child == NoChild
    requires (t.phase == Deleting && t.mode.Off? && SameLive(t.disk, t.am) && t.buf == [])
             || (t.phase == Booting && BootingOk(t))
    ensures Inv(t)
  {
    hide LogOk, Recover, Owed, FilesOk, Ordered, Remembers;
  }

  lemma RestartOffKeeps(s: State, mem: seq<Write>, gc: bool)
    requires Collects(s, gc) && Inv(s)
    ensures Inv(DoRestartOff(s, mem, gc))
  {
    hide Recover, FilesOk, Ordered, Remembers, PhaseOk, Owed;
    ReloadWellFormed(s.disk);
    var t := DoRestartOff(s, mem, gc);
    OwedOff(t);
    BootInv(t);
  }

  lemma OwedOff(t: State)
    requires t.mode.Off? || t.phase.Booting?
    ensures Owed(t) == t.durable
  {
  }

  /** A torn log is a log again after loading. */
  lemma LoadedLog(bytes: string)
    requires IsTorn(bytes) && Continuable(bytes)
    ensures var b := LoadedFile(bytes);
            && IsTorn(b) && Usable(b) && Performed(b) == Performed(bytes)
            && Continues(Log(b), Performed(b))
            && (LoadLog(bytes).0.Loaded? ==> b == bytes)
  {
    hide Continuable, Performed, LoadLog, WellFed, InMulti, Enc, Replay, IsLog;
    ResumedLog(bytes);
    var b := LoadedFile(bytes);
    LogLoads(EntriesOf(b), b);
  }

  lemma LoadsToEnd(bytes: string)
    requires LoadLog(bytes).0.Loaded?
    ensures Continuable(bytes)
  {
    hide LoadLog, LoadedFile;
    UnchangedIfLoaded(bytes);
  }

  lemma FileIsTorn(files: Files, f: FileName)
    requires FilesOk(files) && f in files && (f.IncrFile? || f.TempIncr?)
    ensures files[f].Log? && IsTorn(files[f].bytes) && BytesOf(files, f) == files[f].bytes
  {
  }

  lemma RestartKeeps(s: State, gc: bool)
    requires Recover(s.disk, s.files).Some? && Careful(s, Restart(gc)) && Inv(s)
    ensures Inv(DoRestart(s, gc))
  {
    hide Recover, FilesOk, Ordered, Remembers, PhaseOk, Owed, Performed, Continuable, LoadedFile, Continues, IsTorn,
      LoadLog, RecoverWhole, Live;
    ReloadWellFormed(s.disk);
    var t := DoRestart(s, gc);
    OwedOff(t);
    if s.disk.incr == [] {
      if IncrFile(1) in s.files {
        FileIsTorn(s.files, IncrFile(1));
        LoadsToEnd(BytesOf(s.files, IncrFile(1)));
        LoadedLog(BytesOf(s.files, IncrFile(1)));
      }
    } else {
      RestartLast(s, t.files);
    }
    BootInv(t);
  }

  /** Loading leaves the last INCR file as a log, and changes nothing else. */
  lemma RestartLast(s: State, files': Files)
    requires FilesOk(s.files) && Ordered(s.disk) && Recover(s.disk, s.files).Some? && s.disk.incr != []
    requires Continuable(BytesOf(s.files, LastName(s.disk)))
    requires files' == LoadedFiles(s.disk, s.files)
    ensures FilesOk(files') && Recover(s.disk, files') == Recover(s.disk, s.files)
    ensures var last := LastName(s.disk);
            last in files' && files'[last].Log? && Continues(files'[last], Performed(files'[last].bytes))
  {
    hide Recover, FilesOk, Ordered, Performed, Continuable, LoadedFile, Continues, IsTorn, LoadLog, RecoverWhole, Live,
      Usable;
    var last := LastName(s.disk);
    LastUsable(s.disk, s.files);
    FileIsTorn(s.files, last);
    var b := LoadedFile(s.files[last].bytes);
    LoadedLog(s.files[last].bytes);
    assert files' == s.files[last := Log(b)];
    PutTorn(s.files, last, b);
    LastNotBefore(s.disk);
    RecoverWholeFrame(BeforeLast(s.disk), s.files, files');
    LastRecovers(s.disk, files');
  }

  lemma PutTorn(files: Files, f: FileName, bytes: string)
    requires FilesOk(files) && f.IncrFile? && IsTorn(bytes)
    ensures FilesOk(files[f := Log(bytes)])
  {
    hide IsTorn;
  }

  lemma LastRecovers(m: Manifest, files: Files)
    requires m.incr != [] && LastName(m) in files && files[LastName(m)].Log? && Usable(files[LastName(m)].bytes)
    requires RecoverWhole(BeforeLast(m), files).Some?
    ensures Recover(m, files)
            == Some(RecoverWhole(BeforeLast(m), files).value + Performed(files[LastName(m)].bytes))
  {
    hide RecoverWhole, Usable, Performed;
  }

  lemma BootOpenedInv(t: State)
    requires HistoryOk(t) && Ordered(t.disk) && FilesOk(t.files) && Recover(t.disk, t.files) == Some(t.mem)
    requires t.phase == BootOpened && t.mode.On? && t.child == NoChild && t.buf == [] && LogOk(t, t.am)
    ensures Inv(t)
  {
    hide Recover, RecoverWhole, FilesOk, Ordered, Remembers, Complete, Settled, Replay, Accounted, FedOk;
    SettledAll(t);
  }

  /** A log opened in append mode, with the entries that are already there. */
  lemma ReopenedLog(t: State, m: Manifest)
    requires m.incr != [] && t.fd == Open(LastName(m), true, 0) && LogOpen(t)
    requires IsLog(t.fed, OpenBytes(t)) && t.size == |OpenBytes(t)| && t.buf == [] && t.selected == -1
    requires RecoverWhole(BeforeLast(m), t.files) == Some(t.before) && t.mem == t.before + Replay(t.fed)
    ensures LogOk(t, m)
  {
    hide Enc, RecoverWhole, WellFed, InMulti, Replay;
    assert OpenBytes(t)[..t.size] + [] == OpenBytes(t);
  }

  lemma BootingFacts(s: State)
    requires s.phase.Booting? && Inv(s)
    ensures HistoryOk(s) && Ordered(s.disk) && FilesOk(s.files) && Recover(s.disk, s.files) == Some(s.mem)
    ensures BootingOk(s) && s.child.NoChild?
  {
    hide Recover, FilesOk, Ordered;
  }

  lemma BootReopenKeeps(s: State)
    requires s.phase.Booting? && s.am.incr != [] && Inv(s)
    ensures Inv(BootLog(BootBase(s)))
  {
    hide Inv, Recover, RecoverWhole, FilesOk, Ordered, Remembers, Performed, Replay, Enc, WellFed, InMulti, Owed,
      EntriesOf, LogOk;
    BootingFacts(s);
    var t := BootLog(BootBase(s));
    RecoverSame(s.disk, s.am, s.files);
    LastUsable(s.am, s.files);
    ReopenedLog(t, t.am);
    BootOpenedInv(t);
  }

  /** The files of a start without INCR files: a BASE file is there, and everything is in it. */
  lemma BootBaseOk(s: State)
    requires Inv(s) && s.phase.Booting? && s.am.incr == []
    ensures var u := BootBase(s);
            && u == s.(am := u.am, files := u.files)
            && Ordered(u.am) && u.am.base.Some? && u.am.incr == [] && u.am.incrSeq == 0
            && u.am.history == s.am.history && (Remembers(s.am) ==> Remembers(u.am))
            && FilesOk(u.files) && Recover(s.disk, u.files) == Some(s.mem) && RecoverWhole(u.am, u.files) == Some(s.mem)
            && Agree(IncrFile(1), s.files, u.files)
  {
    hide Inv, FilesOk, Performed, Replay, IsLog, EntriesOf, LoadLog, Continues;
    BootingFacts(s);
    var u := BootBase(s);
    RecoverSame(s.disk, s.am, s.files);
    if s.am.base.None? {
      PutSnapshot(s.files, BaseFile(s.am.baseSeq + 1), s.mem);
      BaseAlone(u.am, u.files, s.mem);
      NewBaseNotLive(s.am);
      RecoverFrame(s.disk, s.files, u.files);
    }
  }

  lemma BootFreshKeeps(s: State)
    requires s.phase.Booting? && s.am.incr == [] && Inv(s)
    ensures Inv(BootLog(BootBase(s)))
  {
    hide Inv, Recover, RecoverWhole, FilesOk, Ordered, Remembers, Performed, Replay, Enc, WellFed, InMulti, Owed,
      EntriesOf, LogOk, NewIncr, BootBase, Live;
    BootingFacts(s);
    BootBaseOk(s);
    var u := BootBase(s);
    var t := BootLog(BootBase(s));
    NewNames(u.am);
    NewIncrOrdered(u.am);
    NewIncrNotLive(u.am);
    BlankFirst(u.files, t.files);
    NotLive(s.disk, IncrFile(1));
    RecoverFrame(s.disk, u.files, t.files);
    RecoverWholeFrame(u.am, u.files, t.files);
    RecoverSame(BeforeLast(t.am), u.am, t.files);
    assert t.mem + [] == t.mem;
    ReopenedLog(t, t.am);
    BootOpenedInv(t);
  }

  lemma BlankFirst(files: Files, files': Files)
    requires FilesOk(files) && (IncrFile(1) in files ==> Continues(files[IncrFile(1)], []))
    requires files' == if IncrFile(1) in files then files else files[IncrFile(1) := Log([])]
    ensures FilesOk(files') && IncrFile(1) in files' && Continues(files'[IncrFile(1)], [])
  {
    hide FilesOk, EntriesOf, WellFed, InMulti, Enc;
    if IncrFile(1) !in files {
      PutLog(files, IncrFile(1));
      EmptyLog();
      LoadedLog([]);
    }
  }

  lemma BootOpenKeeps(s: State)
    requires s.phase.Booting? && Inv(s)
    ensures Inv(BootLog(BootBase(s)))
  {
    hide Inv, BootLog, BootBase;
    if s.am.incr == [] {
      BootFreshKeeps(s);
    } else {
      BootReopenKeeps(s);
    }
  }

  lemma StepKeeps(s: State, step: Step)
    requires Enabled(s, step) && Careful(s, step) && Inv(s)
    ensures Inv(Do(s, step))
  {
    hide Inv, DoFeed, DoFlush, OpenTemp, DoCommit, DoCommitFails, DoRenameBase, DoRenameIncr, CleanUp, BootLog,
      BootBase, DoRestart, DoRestartOff, DoStopAof, DoSwitchIncr, DoDeleteHistory, DoChildWrites, DoCreateIncr,
        DoFork, DoInstall, DoForkFails, DoPersistIncr, DoFinishHandler, Recover, Balanced, Harmless;
    match step
    case FeedStep(calls) => FeedKeeps(s, calls);
    case Flush(n, truncateOk) => FlushKeeps(s, n, truncateOk);
    case ForgetDb => ForgetDbKeeps(s);
    case PersistManifest => PersistKeeps(s);
    case PersistHistory => PersistKeeps(s);
    case BootPersist => BootPersistKeeps(s);
    case CreateIncr => CreateIncrKeeps(s);
    case PersistIncr => PersistIncrKeeps(s);
    case PersistIncrFails => PersistIncrFailsKeeps(s);
    case SwitchIncr => SwitchIncrKeeps(s);
    case CreateTempIncr => assert s == s.(mode := Wait, child := NoChild); OpenTempKeeps(s, false);
    case SkipIncr => SkipIncrKeeps(s);
    case Fork => ForkKeeps(s);
    case ForkFails => ForkFailsKeeps(s);
    case ChildWrites => ChildWritesKeeps(s);
    case ChildFails => ChildFailsKeeps(s);
    case RenameBase => RenameBaseKeeps(s);
    case RenameBaseFails => ChildFailsKeeps(s);
    case RenameIncr => RenameIncrKeeps(s);
    case RenameIncrFails => RenameIncrFailsKeeps(s);
    case Commit => CommitKeeps(s);
    case CommitFails => CommitFailsKeeps(s);
    case Install => InstallKeeps(s);
    case DeleteHistory => DeleteHistoryKeeps(s);
    case FinishHandler => FinishHandlerKeeps(s);
    case EnableGc => CollectionKeeps(s, true, Collecting);
    case FinishCollect => CollectionKeeps(s, s.gc, Idle);
    case DisableGc => CollectionKeeps(s, false, Idle);
    case StopAof => StopAofKeeps(s);
    case StartLater => StartLaterKeeps(s);
    case StartNow => OpenTempKeeps(s, true);
    case Restart(gc) => RestartKeeps(s, gc);
    case RestartOff(mem, gc) => RestartOffKeeps(s, mem, gc);
    case BootOpen => BootOpenKeeps(s);
  }

  // ----- the theorems -----

  /** A server started for the first time, with an empty directory. */
  const START := State(On, Booting, NoChild, true, [], [], -1, Closed, 0, EMPTY, EMPTY, map[], [], [], [])

  lemma StartOk()
    ensures Inv(START)
  {
    var none: seq<Write> := [];
    assert none + none == none;
    assert Recover(EMPTY, map[]) == Some(none);
  }

  /** `steps` can be taken one after the other from `s`, each one carefully. */
  ghost predicate CarefulRun(s: State, steps: seq<Step>)
    decreases |steps|
  {
    steps != [] ==> Enabled(s, steps[0]) && Careful(s, steps[0]) && CarefulRun(Do(s, steps[0]), steps[1..])
  }

  ghost function Run(s: State, steps: seq<Step>): State
    requires CarefulRun(s, steps)
    decreases |steps|
  {
    if steps == [] then s else Run(Do(s, steps[0]), steps[1..])
  }

  /** Some careful run from the first start ends in `s`. */
  ghost predicate Reachable(s: State) {
    exists steps :: CarefulRun(START, steps) && Run(START, steps) == s
  }

  lemma {:induction false} RunOneMore(s: State, steps: seq<Step>, step: Step)
    requires CarefulRun(s, steps) && Enabled(Run(s, steps), step) && Careful(Run(s, steps), step)
    ensures CarefulRun(s, steps + [step]) && Run(s, steps + [step]) == Do(Run(s, steps), step)
    decreases |steps|
  {
    hide Do, Enabled, Careful;
    var more := steps + [step];
    if steps == [] {
      assert more == [step] && more[1..] == [];
      assert CarefulRun(Do(s, step), []) && Run(Do(s, step), []) == Do(s, step);
    } else {
      assert more[0] == steps[0] && more[1..] == steps[1..] + [step];
      RunOneMore(Do(s, steps[0]), steps[1..], step);
    }
  }

  lemma ReachableStep(s: State, step: Step)
    requires Reachable(s) && Enabled(s, step) && Careful(s, step)
    ensures Reachable(Do(s, step))
  {
    var steps :| CarefulRun(START, steps) && Run(START, steps) == s;
    hide Do, Enabled, Careful, Run, CarefulRun;
    RunOneMore(START, steps, step);
  }

  lemma {:induction false} RunKeeps(s: State, steps: seq<Step>)
    requires Inv(s) && CarefulRun(s, steps)
    ensures Inv(Run(s, steps))
    decreases |steps|
  {
    hide Inv, Do, Enabled, Careful;
    if steps != [] {
      StepKeeps(s, steps[0]);
      RunKeeps(Do(s, steps[0]), steps[1..]);
    }
  }

  lemma ReachableInv(s: State)
    requires Reachable(s)
    ensures Inv(s)
  {
    var steps :| CarefulRun(START, steps) && Run(START, steps) == s;
    hide Inv, CarefulRun, Run;
    StartOk();
    RunKeeps(START, steps);
  }

  /** Crash safety: wherever a run stops, the files named by the manifest on disk are all
      there, each named once, and loading them rebuilds what is owed: while there is a log, the
      commands wholly written to it, but for an open transaction.  Memory is these and the rest
      of what was fed; so with an empty buffer a restart rebuilds all of it. */
  lemma CrashSafe(s: State)
    requires Reachable(s)
    ensures Recover(s.disk, s.files) == Some(Owed(s))
    ensures forall f :: f in Live(s.disk) ==> f in s.files
    ensures forall i, j :: 0 <= i < j < |Live(s.disk)| ==> Live(s.disk)[i] != Live(s.disk)[j]
    ensures Logging(s) ==> s.mem == s.before + Replay(s.fed) && WellFed(s.fed) && !InMulti(s.fed)
    ensures Logging(s) && s.buf == [] ==> Owed(s) == s.mem
  {
    hide Inv, Recover, Owed, Replay, WellFed, InMulti, Logging, Live;
    ReachableInv(s);
    InvariantFacts(s);
    LiveOnce(s.disk, s.files);
  }

  lemma {:induction false} IncrPresent(incr: seq<nat>, files: Files)
    requires RecoverIncr(incr, files).Some?
    ensures forall i :: 0 <= i < |incr| ==> IncrFile(incr[i]) in files
    decreases |incr|
  {
    hide LoadLog, Performed;
    if incr != [] {
      IncrPresent(incr[..|incr| - 1], files);
    }
  }

  lemma LiveOnce(m: Manifest, files: Files)
    requires Ordered(m) && Recover(m, files).Some?
    ensures forall f :: f in Live(m) ==> f in files
    ensures forall i, j :: 0 <= i < j < |Live(m)| ==> Live(m)[i] != Live(m)[j]
  {
    hide LoadLog, Performed, RecoverIncr;
    IncrPresent(if m.incr == [] then [] else m.incr[..|m.incr| - 1], files);
  }

  lemma InvariantFacts(s: State)
    requires Inv(s)
    ensures Ordered(s.disk) && Recover(s.disk, s.files) == Some(Owed(s))
    ensures Logging(s) ==> s.mem == s.before + Replay(s.fed) && WellFed(s.fed) && !InMulti(s.fed)
    ensures Logging(s) && s.buf == [] ==> Owed(s) == s.mem
  {
    hide Replay, Recover, RecoverWhole, Ordered, FilesOk, Remembers, WellFed, InMulti, Accounted, Complete, Settled;
    if Logging(s) && s.buf == [] {
      SettledAll(s);
    }
  }
}
