/** Where the promise of the rewrite ends: for each condition that a careful run respects, what
    happens without it.
  */
module AofRewriteLimits {
  import opened Options
  import opened AofManifest
  import opened AofLog
  import opened AofTornAppend
  import opened AofRewrite
  import opened AofCrashSafety
  import AofCodec
  import AofCodecProofs
  import AofFlush
  import Stdio

  // ----- runs, step by step -----

  lemma Take(s: State, step: Step, rest: seq<Step>, t: State)
    requires Enabled(s, step) && Leads(Do(s, step), rest, t)
    ensures Leads(s, [step] + rest, t)
  {
    hide Do, Enabled;
    assert ([step] + rest)[1..] == rest;
  }

  lemma TakeCreateIncr(s: State, rest: seq<Step>, t: State)
    requires s.phase.Idle? && s.mode.On? && s.child.NoChild?
    requires Leads(DoCreateIncr(s), rest, t)
    ensures Leads(s, [CreateIncr] + rest, t)
  {
    hide Leads, DoCreateIncr;
    Take(s, CreateIncr, rest, t);
  }

  lemma TakePersistIncr(s: State, rest: seq<Step>, t: State)
    requires s.phase.Creating?
    requires Leads(DoPersistIncr(s), rest, t)
    ensures Leads(s, [PersistIncr] + rest, t)
  {
    hide Leads, DoPersistIncr;
    Take(s, PersistIncr, rest, t);
  }

  lemma TakeSwitchIncr(s: State, rest: seq<Step>, t: State)
    requires s.phase.Created?
    requires Leads(DoSwitchIncr(s), rest, t)
    ensures Leads(s, [SwitchIncr] + rest, t)
  {
    hide Leads, DoSwitchIncr;
    Take(s, SwitchIncr, rest, t);
  }

  lemma TakeSkipIncr(s: State, rest: seq<Step>, t: State)
    requires s.phase.Idle? && s.mode.Off? && s.child.NoChild?
    requires Leads(s.(phase := ReadyToFork(false)), rest, t)
    ensures Leads(s, [SkipIncr] + rest, t)
  {
    hide Leads;
    Take(s, SkipIncr, rest, t);
  }

  lemma TakeFork(s: State, rest: seq<Step>, t: State)
    requires s.phase.ReadyToFork?
    requires Leads(DoFork(s), rest, t)
    ensures Leads(s, [Fork] + rest, t)
  {
    hide Leads, DoFork;
    Take(s, Fork, rest, t);
  }

  lemma TakeChildWrites(s: State, rest: seq<Step>, t: State)
    requires s.child.Running?
    requires Leads(DoChildWrites(s), rest, t)
    ensures Leads(s, [ChildWrites] + rest, t)
  {
    hide Leads, DoChildWrites;
    Take(s, ChildWrites, rest, t);
  }

  lemma TakeRenameBase(s: State, rest: seq<Step>, t: State)
    requires s.phase.Idle? && s.child.Finished? && TempBase in s.files
    requires Leads(DoRenameBase(s), rest, t)
    ensures Leads(s, [RenameBase] + rest, t)
  {
    hide Leads, DoRenameBase;
    Take(s, RenameBase, rest, t);
  }

  lemma TakeRenameIncr(s: State, rest: seq<Step>, t: State)
    requires s.phase.BaseRenamed? && s.mode.Wait? && TempIncr in s.files
    requires Leads(DoRenameIncr(s), rest, t)
    ensures Leads(s, [RenameIncr] + rest, t)
  {
    hide Leads, DoRenameIncr;
    Take(s, RenameIncr, rest, t);
  }

  lemma TakeCommit(s: State, rest: seq<Step>, t: State)
    requires if s.mode.Wait? then s.phase.IncrRenamed? else s.phase.BaseRenamed?
    requires Leads(DoCommit(s), rest, t)
    ensures Leads(s, [Commit] + rest, t)
  {
    hide Leads, DoCommit;
    Take(s, Commit, rest, t);
  }

  lemma TakeInstall(s: State, rest: seq<Step>, t: State)
    requires s.phase.Committed?
    requires Leads(DoInstall(s), rest, t)
    ensures Leads(s, [Install] + rest, t)
  {
    hide Leads, DoInstall;
    Take(s, Install, rest, t);
  }

  lemma TakeDeleteHistory(s: State, rest: seq<Step>, t: State)
    requires (s.phase.Deleting? || s.phase.Collecting?) && s.gc && s.am.history != []
    requires Leads(DoDeleteHistory(s), rest, t)
    ensures Leads(s, [DeleteHistory] + rest, t)
  {
    hide Leads, DoDeleteHistory;
    Take(s, DeleteHistory, rest, t);
  }

  lemma TakeFinishHandler(s: State, rest: seq<Step>, t: State)
    requires s.phase.Deleting? && (s.gc ==> s.am.history == [])
    requires Leads(DoFinishHandler(s), rest, t)
    ensures Leads(s, [FinishHandler] + rest, t)
  {
    hide Leads, DoFinishHandler;
    Take(s, FinishHandler, rest, t);
  }

  lemma TakeBootOpen(s: State, rest: seq<Step>, t: State)
    requires s.phase.Booting?
    requires Leads(BootLog(BootBase(s)), rest, t)
    ensures Leads(s, [BootOpen] + rest, t)
  {
    hide Leads, BootLog, BootBase;
    Take(s, BootOpen, rest, t);
  }

  lemma TakeBootPersist(s: State, rest: seq<Step>, t: State)
    requires s.phase.BootOpened?
    requires Leads(s.(disk := s.am, phase := Deleting), rest, t)
    ensures Leads(s, [BootPersist] + rest, t)
  {
    hide Leads;
    Take(s, BootPersist, rest, t);
  }

  lemma TakeRestart(s: State, gc: bool, rest: seq<Step>, t: State)
    requires Recover(s.disk, s.files).Some? && Leads(DoRestart(s, gc), rest, t)
    ensures Leads(s, [Restart(gc)] + rest, t)
  {
    hide Leads, DoRestart, Recover;
    Take(s, Restart(gc), rest, t);
  }

  lemma Arrived(t: State)
    ensures Leads(t, [], t)
  {
  }

  // ----- rewriting with commands still in the buffer -----

  /** rewriteAppendOnlyFileBackground on a logging server: CreateIncr, PersistIncr, SwitchIncr
      and Fork. */
  function ForkNow(s: State): State {
    DoFork(DoSwitchIncr(DoPersistIncr(DoCreateIncr(s))))
  }

  lemma ForkNowIs(s: State)
    ensures var t := ForkNow(s);
            t == s.(selected := -1, am := NewIncr(s.am), disk := NewIncr(s.am), child := Running(s.mem), size := 0,
                    fd := Open(IncrFile(s.am.incrSeq + 1), false, 0), before := t.before, fed := [], phase := Idle,
                    files := s.files[IncrFile(s.am.incrSeq + 1) := Log([])])
  {
    hide Replay;
  }

  /** The rest of the rewrite: the buffer is flushed, the child finishes, the manifest is
      replaced. */
  function CommitNow(s: State): State {
    Committing(DoFlush(s, |s.buf|, true))
  }

  /** ChildWrites, RenameBase and Commit. */
  function Committing(s: State): State {
    DoCommit(DoRenameBase(DoChildWrites(s)))
  }

  lemma CommittingIs(s: State)
    requires s.child.Running?
    ensures var t := Committing(s);
            && t.mem == s.mem && t.buf == s.buf && t.disk == MarkRewritten(NewBase(s.am), !s.fd.Closed?)
            && t.files == (s.files - {TempBase})[BaseFile(s.am.baseSeq + 1) := Snapshot(s.child.snap)]
  {
    hide MarkRewritten;
    var b := DoChildWrites(s);
    assert b.files - {TempBase} == s.files - {TempBase};
  }

  lemma CommittingRuns(s: State)
    requires s.phase.Idle? && s.child.Running? && !s.mode.Wait?
    ensures Leads(s, [ChildWrites, RenameBase, Commit], Committing(s))
  {
    hide Leads, DoCommit, NewBase;
    var a := DoChildWrites(s);
    var b := DoRenameBase(a);
    Arrived(DoCommit(b));
    TakeCommit(b, [], DoCommit(b));
    assert [Commit] + [] == [Commit];
    TakeRenameBase(a, [Commit], DoCommit(b));
    assert [RenameBase] + [Commit] == [RenameBase, Commit];
    TakeChildWrites(s, [RenameBase, Commit], DoCommit(b));
    assert [ChildWrites] + [RenameBase, Commit] == [ChildWrites, RenameBase, Commit];
  }

  lemma ForkNowRuns(s: State)
    requires Enabled(s, CreateIncr)
    ensures Leads(s, [CreateIncr, PersistIncr, SwitchIncr, Fork], ForkNow(s))
  {
    hide Leads, Replay;
    var a := DoCreateIncr(s);
    var b := DoPersistIncr(a);
    var c := DoSwitchIncr(b);
    Arrived(DoFork(c));
    TakeFork(c, [], DoFork(c));
    assert [Fork] + [] == [Fork];
    TakeSwitchIncr(b, [Fork], DoFork(c));
    assert [SwitchIncr] + [Fork] == [SwitchIncr, Fork];
    TakePersistIncr(a, [SwitchIncr, Fork], DoFork(c));
    assert [PersistIncr] + [SwitchIncr, Fork] == [PersistIncr, SwitchIncr, Fork];
    TakeCreateIncr(s, [PersistIncr, SwitchIncr, Fork], DoFork(c));
    assert [CreateIncr] + [PersistIncr, SwitchIncr, Fork] == [CreateIncr, PersistIncr, SwitchIncr, Fork];
  }

  lemma FlushIs(s: State, n: nat, truncateOk: bool)
    requires s.phase.Idle? && LogOpen(s) && n <= |s.buf|
    ensures Enabled(s, Flush(n, truncateOk)) && Do(s, Flush(n, truncateOk)) == DoFlush(s, n, truncateOk)
  {
    hide DoFlush;
  }

  lemma FlushAllIs(s: State)
    requires LogOpen(s) && s.files[s.fd.name] == Log([]) && s.fd.offset == 0 && s.size == 0
    ensures var t := DoFlush(s, |s.buf|, true);
            && t == s.(files := s.files[s.fd.name := Log(s.buf)], buf := [], size := |s.buf|, fd := t.fd)
            && t.fd.Open? && t.fd.name == s.fd.name
  {
    assert s.buf[..|s.buf|] == s.buf && [] + s.buf + [] == s.buf;
    if s.buf == [] {
      AofFlush.NothingWritten(OpenLog(s));
    }
  }

  /** Loading behind a new BASE and one INCR file. */
  lemma OneIncrRecovers(m: Manifest, files: Files, snap: seq<Write>)
    requires m.base.Some? && BaseFile(m.base.value) in files && files[BaseFile(m.base.value)] == Snapshot(snap)
    requires |m.incr| == 1
    ensures var name := LastName(m);
            Recover(m, files) == if name in files && files[name].Log? && Usable(files[name].bytes)
                                 then Some(snap + Performed(files[name].bytes)) else None
  {
    hide RecoverWhole, Usable, Performed;
    BaseAlone(BeforeLast(m), files, snap);
  }

  /** The rewrite is right exactly when what the flush before the fork left in the buffer, read
      as a log of its own, performs nothing: the rest of the buffer goes to the new INCR file,
      and its commands are in the snapshot already. */
  lemma RewriteNeedsEmptyBuffer(s: State)
    requires Enabled(s, CreateIncr)
    ensures Leads(s, [CreateIncr, PersistIncr, SwitchIncr, Fork], ForkNow(s))
    ensures var d := ForkNow(s); Enabled(d, Flush(|d.buf|, true)) && LogOpen(d)
    ensures var d := ForkNow(s);
            var f := DoFlush(d, |d.buf|, true);
            var t := CommitNow(d);
            && f == Do(d, Flush(|d.buf|, true)) && Leads(f, [ChildWrites, RenameBase, Commit], t)
            && t.mem == s.mem && t.buf == []
            && Recover(t.disk, t.files) == (if Usable(s.buf) then Some(t.mem + Performed(s.buf)) else None)
            && (Recover(t.disk, t.files) == Some(t.mem) <==> Usable(s.buf) && Performed(s.buf) == [])
  {
    hide Recover, ForkNow, Usable, Performed, Do, MarkRewritten, Leads, Committing, DoFlush;
    ForkNowRuns(s);
    ForkNowIs(s);
    var d := ForkNow(s);
    var f := DoFlush(d, |d.buf|, true);
    FlushIs(d, |d.buf|, true);
    FlushAllIs(d);
    CommittingRuns(f);
    CommittingIs(f);
    var t := CommitNow(d);
    MarkKeepsLast(NewBase(d.am));
    OneIncrRecovers(t.disk, t.files, s.mem);
    SameLength(s.mem, Performed(s.buf));
  }

  lemma MarkKeepsLast(m: Manifest)
    requires m.incr != []
    ensures var r := MarkRewritten(m, true); r.incr == [m.incr[|m.incr| - 1]] && r.base == m.base
  {
  }

  lemma SameLength(a: seq<Write>, b: seq<Write>)
    ensures a + b == a <==> b == []
  {
    assert |a + b| == |a| + |b|;
    assert b == [] ==> a + b == a;
  }

  /** When whole entries were left, that is: exactly when no command is among them. */
  lemma LeftoverCommands(s: State, k: nat)
    requires LogOpen(s) && Accounted(s) && FedOk(s) && k <= |s.fed| && s.size == |Enc(s.fed[..k])|
    ensures Usable(s.buf) && (Performed(s.buf) == [] <==> forall e :: e in s.fed[k..] ==> !e.Exec?)
  {
    hide Enc, Accounted, WellFed, InMulti, Replay, LoadLog, Performed;
    var a, b := s.fed[..k], s.fed[k..];
    assert a + b == s.fed;
    LeftoverBytes(s, k);
    WellFedSuffix(a, b);
    WholeLogReplays(b);
    ReplaysNothing(b);
  }

  lemma LeftoverBytes(s: State, k: nat)
    requires LogOpen(s) && Accounted(s) && k <= |s.fed| && s.size == |Enc(s.fed[..k])|
    ensures s.buf == Enc(s.fed[k..]) && OpenBytes(s) == Enc(s.fed[..k]) && Cut(s) == []
  {
    hide Enc, LastLine, CutOk, Accounted;
    var a, b := s.fed[..k], s.fed[k..];
    assert a + b == s.fed;
    EncConcat(a, b);
    if Cut(s) != [] {
      var note := CutNote(s);
    }
    AccountedBytes(s);
  }

  // ----- rewriting while the log is off -----

  /** BGREWRITEAOF with the log off: SkipIncr, Fork, ChildWrites, RenameBase and Commit. */
  function OffRewrite(s: State): State {
    Committing(DoFork(s))
  }

  lemma OffRewriteRuns(s: State)
    requires Enabled(s, SkipIncr)
    ensures Leads(s, [SkipIncr, Fork, ChildWrites, RenameBase, Commit], OffRewrite(s))
  {
    hide Leads, Committing;
    var a := s.(phase := ReadyToFork(false));
    assert DoFork(a) == DoFork(s);
    CommittingRuns(DoFork(s));
    var rest := [ChildWrites, RenameBase, Commit];
    TakeFork(a, rest, OffRewrite(s));
    TakeSkipIncr(s, [Fork] + rest, OffRewrite(s));
    assert [SkipIncr] + ([Fork] + rest) == [SkipIncr, Fork, ChildWrites, RenameBase, Commit];
  }

  /** A rewrite with the log off is right exactly when no log is open, as after a start of the
      log that failed, or the last INCR file, which then stays behind the new BASE, performs
      nothing. */
  lemma OffRewriteNeedsClosedLog(s: State)
    requires Reachable(s) && Enabled(s, SkipIncr)
    ensures Leads(s, [SkipIncr, Fork, ChildWrites, RenameBase, Commit], OffRewrite(s))
    ensures var t := OffRewrite(s);
            && t.mem == s.mem && (Recover(t.disk, t.files) == Some(t.mem) <==> Harmless(s))
            && (!Harmless(s) ==> Recover(t.disk, t.files) == Some(t.mem + Performed(BytesOf(s.files, LastName(s.am)))))
  {
    hide Reachable, Recover, Usable, Performed, MarkRewritten, Inv, Committing, Leads;
    ReachableInv(s);
    OffRewriteRuns(s);
    CommittingIs(DoFork(s));
    var t := OffRewrite(s);
    var m := NewBase(s.am);
    if s.fd.Closed? || s.am.incr == [] {
      MarkKeepsNone(m, !s.fd.Closed?);
      BaseAlone(t.disk, t.files, s.mem);
    } else {
      MarkKeepsLast(m);
      IdleRecovers(s);
      LastUsable(s.am, s.files);
      OneIncrRecovers(t.disk, t.files, s.mem);
      SameLength(s.mem, Performed(BytesOf(s.files, LastName(s.am))));
    }
  }

  lemma MarkKeepsNone(m: Manifest, logOpen: bool)
    requires !logOpen || m.incr == []
    ensures MarkRewritten(m, logOpen).incr == [] && MarkRewritten(m, logOpen).base == m.base
  {
  }

  lemma IdleRecovers(s: State)
    requires Inv(s) && s.phase.Idle?
    ensures Recover(s.am, s.files) == Some(Owed(s))
  {
    hide Recover, RecoverWhole, Owed, FilesOk, Ordered, Remembers, LogOk, WaitOk;
    RecoverSame(s.disk, s.am, s.files);
  }

  // ----- writing behind a gap -----

  /** After a rolled-back short write on a log that is not in append mode, a flush keeps the
      account exactly when it is careful, or writes zeros. */
  lemma FlushNeedsAlignment(s: State, n: nat, truncateOk: bool)
    requires Enabled(s, Flush(n, truncateOk)) && Accounted(s) && !s.fd.append && s.fd.offset > s.size
    ensures var t := DoFlush(s, n, truncateOk);
            && Do(s, Flush(n, truncateOk)) == t && LogOpen(t)
            && (AofFlush.Conserved(OpenLog(t), Enc(s.fed) + Cut(s))
                <==> Careful(s, Flush(n, truncateOk)) || s.buf[..n] == AofFlush.Zeros(n))
  {
    hide AofFlush.Flushed, AofFlush.Conserved, Enc, AofFlush.RollsBack, Cut, CutOk;
    AofFlush.MisalignedFlush(OpenLog(s), n, truncateOk, Enc(s.fed) + Cut(s));
    var l := AofFlush.Flushed(OpenLog(s), n, truncateOk);
    AofFlush.SameMode(OpenLog(s), n, truncateOk);
    assert OpenLog(DoFlush(s, n, truncateOk)) == l;
  }

  /** What such a flush does to recovery, when whole entries are in the file: it is unchanged if
      the flush is careful, and otherwise the file cannot be loaded at all. */
  lemma GapNeedsCare(s: State, n: nat, truncateOk: bool, k: nat)
    requires Enabled(s, Flush(n, truncateOk)) && Accounted(s) && FedOk(s) && !s.fd.append && s.fd.offset > s.size
    requires k <= |s.fed| && s.size == |Enc(s.fed[..k])|
    ensures var t := DoFlush(s, n, truncateOk);
            && Do(s, Flush(n, truncateOk)) == t && LogOpen(t)
            && (Careful(s, Flush(n, truncateOk)) ==> OpenBytes(t) == OpenBytes(s) && Usable(OpenBytes(t)))
            && (!Careful(s, Flush(n, truncateOk)) ==> LoadLog(OpenBytes(t)).0 == AofCodec.FormatError)
  {
    hide Enc, Accounted, WellFed, LoadLog, AofFlush.RollsBack, AofFlush.Flushed, InMulti, Performed;
    LeftoverBytes(s, k);
    OpenLogLoads(s);
    var l := OpenLog(s);
    FlushBehind(l, n, truncateOk);
    AofFlush.SameMode(l, n, truncateOk);
    assert OpenLog(DoFlush(s, n, truncateOk)) == AofFlush.Flushed(l, n, truncateOk);
    if !Careful(s, Flush(n, truncateOk)) {
      WellFedPrefix(s.fed, k);
      var rest := AofFlush.Zeros(l.offset - l.size) + l.buf[..n];
      assert rest[0] == Stdio.NUL;
      ZeroBehind(s.fed[..k], rest);
    }
  }

  lemma FlushBehind(l: AofFlush.Log, n: nat, truncateOk: bool)
    requires n <= |l.buf| && !l.append && l.offset > l.size && l.size == |l.file|
    ensures AofFlush.Flushed(l, n, truncateOk).file
            == if n == 0 || AofFlush.RollsBack(l, n, truncateOk) then l.file
               else l.file + (AofFlush.Zeros(l.offset - l.size) + l.buf[..n])
  {
    if n > 0 {
      AofFlush.WrittenBehindGap(l, n);
      assert (l.file + (AofFlush.Zeros(l.offset - l.size) + l.buf[..n]))[..l.size] == l.file;
    } else {
      AofFlush.NothingStays(l, n, truncateOk);
    }
  }

  /** A zero where an entry should begin. */
  lemma ZeroBehind(log: seq<Entry>, rest: string)
    requires WellFed(log) && rest != [] && rest[0] == Stdio.NUL
    ensures LoadLog(Enc(log) + rest).0 == AofCodec.FormatError
  {
    hide WellFed, AofCodec.LoadFrom, AofCodecProofs.RunItems, AofCodec.Encode;
    FedLoadable(log);
    LoadThrough(ItemsOf(log), rest, AofCodec.START, KindOf);
    NotACommand(rest, AofCodecProofs.RunItems(AofCodec.START, ItemsOf(log), KindOf));
  }

  // ----- starting -----

  /** aofDelHistoryFiles: DeleteHistory, as often as there are names. */
  function DeleteAll(s: State): State
    decreases |s.am.history|
  {
    if s.am.history == [] then s else DeleteAll(DoDeleteHistory(s))
  }

  function Deletions(n: nat): seq<Step> {
    seq(n, i => DeleteHistory)
  }

  lemma {:induction false} DeleteAllRuns(s: State)
    requires s.phase.Deleting? && s.gc
    ensures Leads(s, Deletions(|s.am.history|), DeleteAll(s))
    decreases |s.am.history|
  {
    hide Leads;
    if s.am.history == [] {
      Arrived(s);
    } else {
      var t := DoDeleteHistory(s);
      DeleteAllRuns(t);
      TakeDeleteHistory(s, Deletions(|t.am.history|), DeleteAll(t));
      assert [DeleteHistory] + Deletions(|t.am.history|) == Deletions(|s.am.history|);
    }
  }

  function Names(files: seq<FileName>): (r: set<FileName>)
    ensures forall f :: f in r <==> f in files
  {
    set f | f in files
  }

  lemma {:induction false} DeleteAllIs(s: State)
    ensures DeleteAll(s) == s.(files := s.files - Names(s.am.history), am := s.am.(history := []))
    decreases |s.am.history|
  {
    if s.am.history == [] {
      assert s.files - {} == s.files;
    } else {
      var t := DoDeleteHistory(s);
      DeleteAllIs(t);
      assert Names(s.am.history) == {s.am.history[0]} + Names(t.am.history);
      assert t.files - Names(t.am.history) == s.files - Names(s.am.history);
    }
  }

  /** The start of a server with the log on, up to the deletion of the history: Restart,
      BootOpen and BootPersist. */
  ghost function Opened(s: State, gc: bool): State {
    var a := BootLog(BootBase(DoRestart(s, gc)));
    a.(disk := a.am, phase := Deleting)
  }

  /** ... and to its end. */
  ghost function Started(s: State, gc: bool): State {
    if gc then DeleteAll(Opened(s, gc)) else Opened(s, gc)
  }

  lemma BootPhases(s: State, gc: bool)
    ensures DoRestart(s, gc).phase.Booting?
    ensures BootLog(s).phase.BootOpened?
  {
    hide Recover, LoadedFiles, Owed, EntriesOf, RecoverWhole, BytesOf;
  }

  lemma OpenedRuns(s: State, gc: bool)
    requires Recover(s.disk, s.files).Some?
    ensures Leads(s, [Restart(gc), BootOpen, BootPersist], Opened(s, gc))
  {
    hide Leads, Recover, DoRestart, BootLog, BootBase;
    var a := DoRestart(s, gc);
    var b := BootLog(BootBase(a));
    var c := Opened(s, gc);
    BootPhases(s, gc);
    BootPhases(BootBase(a), gc);
    Arrived(c);
    TakeBootPersist(b, [], c);
    TakeBootOpen(a, [BootPersist] + [], c);
    TakeRestart(s, gc, [BootOpen] + ([BootPersist] + []), c);
    assert [Restart(gc)] + ([BootOpen] + ([BootPersist] + [])) == [Restart(gc), BootOpen, BootPersist];
  }

  lemma OpenedExisting(s: State, gc: bool)
    requires Recover(s.disk, s.files).Some? && s.disk.incr != []
    ensures var t := Opened(s, gc);
            && t.phase == Deleting && t.gc == gc && t.mode.On? && t.child.NoChild?
               && t.mem == Recover(s.disk, s.files).value
            && t.am == Reload(s.disk) && t.disk == t.am && t.files == LoadedFiles(s.disk, s.files)
            && t.fd == Open(LastName(s.disk), true, 0) && t.buf == [] && t.selected == -1
            && t.size == |BytesOf(t.files, LastName(s.disk))|
  {
    hide Recover, LoadedFile, EntriesOf, Owed, RecoverWhole;
    LastThere(s.disk, s.files);
  }

  lemma LastThere(m: Manifest, files: Files)
    requires m.incr != [] && Recover(m, files).Some?
    ensures LastName(m) in files && files[LastName(m)].Log?
  {
    hide RecoverWhole, Usable, Performed;
  }

  lemma RestartedFirst(s: State, gc: bool)
    requires Recover(s.disk, s.files).Some? && s.disk.incr == []
    ensures var a := DoRestart(s, gc);
            var u := BootBase(a);
            && a.mem == Recover(s.disk, s.files).value
            && u == a.(am := u.am, files := u.files) && u.am.incr == [] && u.am.incrSeq == 0
            && u.am.base.Some? && u.am.baseSeq == u.am.base.value && u.buf == [] && u.selected == -1
            && (s.disk.base.Some? ==> u.am.history == s.disk.history && u.am.base == s.disk.base && u.files == s.files)
            && (s.disk.base.None? ==> u.am.history == s.disk.history && u.am.base == Some(1)
                                      && u.files == s.files[BaseFile(1) := Snapshot(a.mem)])
  {
    hide Recover, Owed;
  }

  lemma OpenedFirst(s: State, gc: bool)
    requires Recover(s.disk, s.files).Some? && s.disk.incr == []
    ensures var t := Opened(s, gc);
            var base := if s.disk.base.Some? then s.files else s.files[BaseFile(1) := Snapshot(t.mem)];
            && t.phase == Deleting && t.gc == gc && t.mode.On? && t.child.NoChild?
               && t.mem == Recover(s.disk, s.files).value
            && t.am.incr == [1] && t.am.incrSeq == 1 && t.am.history == s.disk.history && t.disk == t.am
            && t.am.base == (if s.disk.base.Some? then s.disk.base else Some(1)) && t.am.baseSeq == t.am.base.value
            && t.fd == Open(IncrFile(1), true, 0) && t.buf == [] && t.selected == -1
            && t.size == |BytesOf(t.files, IncrFile(1))|
            && t.files == (if IncrFile(1) in s.files then base else base[IncrFile(1) := Log([])])
  {
    hide Recover, EntriesOf, RecoverWhole, BootBase, LoadedFiles, Owed, BytesOf;
    RestartedFirst(s, gc);
    BootLogFirst(BootBase(DoRestart(s, gc)));
  }

  lemma BootLogFirst(s: State)
    requires s.am.incr == [] && s.am.incrSeq == 0
    ensures var t := BootLog(s);
            var before := RecoverWhole(BeforeLast(t.am), t.files);
            && t == s.(am := s.am.(incr := [1], incrSeq := 1), fd := Open(IncrFile(1), true, 0), files := t.files,
                       size := |BytesOf(t.files, IncrFile(1))|, phase := BootOpened,
                       before := if before.Some? then before.value else [],
                       fed := EntriesOf(BytesOf(t.files, IncrFile(1))))
            && t.files == if IncrFile(1) in s.files then s.files else s.files[IncrFile(1) := Log([])]
  {
    hide EntriesOf, RecoverWhole, BytesOf;
  }

  /** What the manifest without INCR files recovers is in its BASE file. */
  lemma BaseHolds(m: Manifest, files: Files)
    requires m.incr == [] && Recover(m, files).Some?
    ensures m.base.Some? ==>
              BaseFile(m.base.value) in files && files[BaseFile(m.base.value)] == Snapshot(Recover(m, files).value)
  {
    var base := RecoverBase(m, files).value;
    assert base + [] == base;
  }

  /** The first INCR file of a start without INCR lines. */
  ghost predicate FirstNameFree(s: State, gc: bool) {
    (gc ==> IncrFile(1) !in s.disk.history) && Performed(BytesOf(s.files, IncrFile(1))) == []
  }

  /** A whole start is right if the manifest names an INCR file.  If it names none, the sequence
      restarts, the log goes to number 1, and the start is right exactly when that name is not
      waiting for deletion and no file of that name performs anything. */
  lemma StartNeedsFirstName(s: State, gc: bool)
    requires Reachable(s)
    ensures Leads(s, [Restart(gc), BootOpen, BootPersist], Opened(s, gc))
    ensures gc ==> Leads(Opened(s, gc), Deletions(|s.disk.history|), Started(s, gc))
    ensures var t := Started(s, gc);
            && t.mem == Owed(s) && (gc ==> t.am.history == [])
            && (Recover(t.disk, t.files) == Some(t.mem) <==> s.disk.incr == [] ==> FirstNameFree(s, gc))
  {
    hide Inv, Reachable, Recover, PhaseOk, HistoryOk, Performed, Owed, FilesOk, Ordered, Opened, DeleteAll, Retired,
      Remembers, Leads, Enabled;
    ReachableInv(s);
    DiskFacts(s);
    OpenedRuns(s, gc);
    var u := Opened(s, gc);
    if s.disk.incr == [] {
      OpenedFirst(s, gc);
      StartFirst(s, gc, u);
    } else {
      OpenedExisting(s, gc);
      StartExisting(s, gc, u);
    }
    if gc {
      DeleteAllIs(u);
      DeleteAllRuns(u);
    }
  }

  lemma HistoryNotLive(m: Manifest, f: FileName)
    requires Ordered(m) && f in Live(m)
    ensures f !in m.history
  {
    if f in m.history {
      assert Retired(m, f);
      RetiredNotLive(m, f);
    }
  }

  lemma StartExisting(s: State, gc: bool, u: State)
    requires Ordered(s.disk) && FilesOk(s.files) && Recover(s.disk, s.files).Some? && s.disk.incr != []
    requires u.mem == Recover(s.disk, s.files).value && u.am == Reload(s.disk) && u.disk == u.am
    requires u.files == LoadedFiles(s.disk, s.files)
    ensures var files := if gc then u.files - Names(u.am.history) else u.files; Recover(u.disk, files) == Some(u.mem)
  {
    hide Recover, FilesOk, Ordered, Performed, LoadedFile, IsTorn, LoadLog, RecoverWhole, Live, Retired;
    var last := LastName(s.disk);
    LastUsable(s.disk, s.files);
    FileIsTorn(s.files, last);
    LoadTwice(s.files[last].bytes);
    LastNotBefore(s.disk);
    RecoverWholeFrame(BeforeLast(s.disk), s.files, u.files);
    LastRecovers(s.disk, u.files);
    RecoverSame(u.disk, s.disk, u.files);
    if gc {
      forall f | f in Live(s.disk)
        ensures Agree(f, u.files, u.files - Names(u.am.history))
      {
        HistoryNotLive(s.disk, f);
      }
      RecoverFrame(u.disk, u.files, u.files - Names(u.am.history));
    }
  }

  lemma StartFirst(s: State, gc: bool, u: State)
    requires Ordered(s.disk) && FilesOk(s.files) && Recover(s.disk, s.files).Some? && s.disk.incr == []
    requires u.mem == Recover(s.disk, s.files).value && u.am.incr == [1] && u.disk == u.am
    requires u.am.history == s.disk.history && u.am.base == if s.disk.base.Some? then s.disk.base else Some(1)
    requires var base := if s.disk.base.Some? then s.files else s.files[BaseFile(1) := Snapshot(u.mem)];
             u.files == if IncrFile(1) in s.files then base else base[IncrFile(1) := Log([])]
    ensures var files := if gc then u.files - Names(u.am.history) else u.files;
            Recover(u.disk, files) == Some(u.mem) <==> FirstNameFree(s, gc)
  {
    hide Recover, FilesOk, Performed, IsTorn, LoadLog, Usable, LoadedFile;
    var files := if gc then u.files - Names(u.am.history) else u.files;
    var first := IncrFile(1);
    BaseHolds(s.disk, s.files);
    EmptyLog();
    BaseNotHistory(s.disk);
    assert BaseFile(u.am.base.value) in files && files[BaseFile(u.am.base.value)] == Snapshot(u.mem);
    OneIncrRecovers(u.disk, files, u.mem);
    if first in s.files {
      FileIsTorn(s.files, first);
      TornUsable(s.files[first].bytes);
    }
    SameLength(u.mem, Performed(BytesOf(s.files, first)));
  }

  lemma TornUsable(bytes: string)
    requires IsTorn(bytes)
    ensures Usable(bytes)
  {
    hide LoadLog, LoadedFile, Performed, IsTorn;
    LoadTwice(bytes);
  }

  lemma BaseNotHistory(m: Manifest)
    requires Ordered(m)
    ensures m.base.Some? ==> BaseFile(m.base.value) !in m.history
    ensures m.base.None? ==> m.history == []
  {
    assert BaseFile(m.baseSeq) in m.history ==> Retired(m, BaseFile(m.baseSeq));
  }

  lemma DiskFacts(s: State)
    requires Inv(s)
    ensures Ordered(s.disk) && FilesOk(s.files) && Recover(s.disk, s.files) == Some(Owed(s))
  {
    hide Recover, Owed, PhaseOk, HistoryOk, FilesOk, Ordered;
  }

  lemma RestartedOff(s: State, mem: seq<Write>, gc: bool)
    ensures var u := DoRestartOff(s, mem, gc);
            && u.phase.Deleting? && u.mode.Off? && u.gc == gc && u.files == s.files && u.disk == s.disk
            && u.am.history == s.disk.history && u.durable == Owed(s)
  {
    hide Owed;
  }

  /** A start with the log off (RestartOff, and a DeleteHistory for every name) is always right. */
  lemma StartOffIsRight(s: State, mem: seq<Write>, gc: bool)
    requires Reachable(s)
    ensures var u := DoRestartOff(s, mem, gc);
            var t := if gc then DeleteAll(u) else u;
            && (gc ==> Leads(u, Deletions(|s.disk.history|), t))
            && Recover(t.disk, t.files) == Some(Owed(s)) && Owed(t) == Owed(s)
  {
    hide Inv, DoRestartOff, Reachable, Recover, Owed, Ordered, DeleteAll, Live, Leads;
    ReachableInv(s);
    DiskFacts(s);
    var u := DoRestartOff(s, mem, gc);
    RestartedOff(s, mem, gc);
    OwedOff(u);
    if gc {
      DeleteAllIs(u);
      DeleteAllRuns(u);
      var t := DeleteAll(u);
      OwedOff(t);
      forall f | f in Live(s.disk)
        ensures Agree(f, s.files, t.files)
      {
        HistoryNotLive(s.disk, f);
      }
      RecoverFrame(s.disk, s.files, t.files);
    }
  }

  // ----- going on after a start -----

  /** The server after a start, one call, and a flush: FinishHandler, FeedStep and Flush. */
  function CallAndFlush(s: State, c: Call): State {
    var b := DoFeed(DoFinishHandler(s), [c]);
    if LogOpen(b) then DoFlush(b, |b.buf|, true) else b
  }

  /** ... step by step. */
  function CallSteps(c: Call): seq<Step> {
    [FinishHandler, FeedStep([c]), Flush(|Enc(FeedCall(-1, c))|, true)]
  }

  lemma CallRuns(s: State, c: Call)
    requires s.phase.Deleting? && s.mode.On? && (s.gc ==> s.am.history == []) && Balanced([c], false)
    requires var b := DoFeed(DoFinishHandler(s), [c]); LogOpen(b) && |b.buf| == |Enc(FeedCall(-1, c))|
    ensures Leads(s, CallSteps(c), CallAndFlush(s, c))
  {
    hide Leads, DoFeed, DoFlush, Balanced, Enc;
    var a := DoFinishHandler(s);
    var b := DoFeed(a, [c]);
    var t := CallAndFlush(s, c);
    FeedFrame(a, [c]);
    Arrived(t);
    Take(b, Flush(|b.buf|, true), [], t);
    Take(a, FeedStep([c]), [Flush(|b.buf|, true)] + [], t);
    TakeFinishHandler(s, [FeedStep([c])] + ([Flush(|b.buf|, true)] + []), t);
    assert [FinishHandler] + ([FeedStep([c])] + ([Flush(|b.buf|, true)] + [])) == CallSteps(c);
  }

  lemma OneCall(c: Call)
    requires ValidCall(c) && c.what.Perform?
    ensures Balanced([c], false) && Feed(-1, [c]) == (FeedCall(-1, c), c.what.w.db) && WritesOf([c]) == [c.what.w]
  {
    hide ValidCall, FeedCall;
    var none: seq<Call> := [];
    assert [c][1..] == none && Balanced(none, false);
    assert Feed(c.what.w.db, none) == ([], c.what.w.db) && WritesOf(none) == [];
    assert FeedCall(-1, c) + [] == FeedCall(-1, c);
  }

  lemma FeedOneIs(s: State, c: Call)
    requires s.mode.On? && s.selected == -1 && ValidCall(c) && c.what.Perform?
    ensures Balanced([c], false)
    ensures var t := DoFeed(s, [c]);
            && t == s.(mem := s.mem + [c.what.w], selected := c.what.w.db, buf := s.buf + Enc(FeedCall(-1, c)),
                       fed := t.fed)
            && t.fed == s.fed + Joined(Cut(s), FeedCall(-1, c))
  {
    hide Enc, ValidCall, Cut, Joined, FeedCall, Feed, WritesOf;
    OneCall(c);
  }

  lemma FlushAppendIs(s: State)
    requires LogOpen(s) && s.fd.append && s.size == |OpenBytes(s)| && s.buf != []
    ensures var file := OpenBytes(s) + s.buf;
            DoFlush(s, |s.buf|, true) == s.(files := s.files[s.fd.name := Log(file)], buf := [], size := |file|,
                                            fd := s.fd.(offset := |file|))
  {
    assert s.buf[..|s.buf|] == s.buf;
    assert OpenBytes(s)[..|OpenBytes(s)|] + s.buf + [] == OpenBytes(s) + s.buf;
  }

  lemma CallNotEmpty(c: Call)
    requires c.what.Perform?
    ensures FeedCall(-1, c) != [] && Enc(FeedCall(-1, c)) != []
  {
    hide Enc;
    assert Exec(c.what.w.cmd) in FeedCall(-1, c);
    EncNotEmpty(FeedCall(-1, c));
  }

  /** A call that is written behind the bytes of the log opened by a start. */
  lemma CallAppends(d: State, c: Call, bytes: string)
    requires d.mode.On? && ValidCall(c) && c.what.Perform? && d.fd.Open? && d.fd.append
    requires d.fd.name in d.files && d.files[d.fd.name] == Log(bytes)
    requires d.buf == [] && d.selected == -1 && d.size == |bytes|
    requires d.phase.Deleting? && (d.gc ==> d.am.history == [])
    ensures Leads(d, CallSteps(c), CallAndFlush(d, c))
    ensures var t := CallAndFlush(d, c);
            && t.mem == d.mem + [c.what.w] && t.disk == d.disk && t.buf == [] && t.mode.On?
            && t.files == d.files[d.fd.name := Log(bytes + Enc(FeedCall(-1, c)))]
  {
    hide Enc, ValidCall, DoFeed, DoFlush, FeedCall, Leads, CallSteps;
    var a := DoFinishHandler(d);
    FeedOneIs(a, c);
    var b := DoFeed(a, [c]);
    var more := Enc(FeedCall(-1, c));
    assert [] + more == more;
    CallNotEmpty(c);
    assert OpenBytes(b) == bytes && LogOpen(b) && b.buf == more;
    FlushAppendIs(b);
    CallRuns(d, c);
  }

  /** The bytes of the last INCR file, before a start. */
  function LastBytes(s: State): string {
    BytesOf(s.files, LastName(s.disk))
  }

  /** The first write after a start is kept exactly when the last INCR file could be continued:
      it did not end inside a command of an open transaction, nor inside an annotation, unless
      the write brings an annotation that fits behind it. */
  lemma StartNeedsResumable(s: State, gc: bool, c: Call)
    requires Reachable(s) && s.disk.incr != [] && ValidCall(c) && c.what.Perform?
    ensures Leads(Started(s, gc), CallSteps(c), CallAndFlush(Started(s, gc), c))
    ensures var t := CallAndFlush(Started(s, gc), c);
            && t.mem == Owed(s) + [c.what.w]
            && (Recover(t.disk, t.files) == Some(t.mem) && LoadLog(BytesOf(t.files, LastName(s.disk))).0.Loaded?
                <==> Resumable(LastBytes(s)) || (InNote(LastBytes(s)) && Joins(LastLine(LastBytes(s)), c)))
  {
    hide Inv, Reachable, Recover, PhaseOk, HistoryOk, Performed, Owed, FilesOk, Ordered, DeleteAll, Retired,
      Remembers, Live, Enc, Opened, Resumable, LoadedFile, LoadLog, ValidCall, IsTorn, RecoverWhole, Usable, Enabled,
      CallAndFlush, LoadedFiles, InNote, Joins, LastLine, FeedCall, Leads, CallSteps;
    ReachableInv(s);
    DiskFacts(s);
    var u := Opened(s, gc);
    OpenedExisting(s, gc);
    DeleteAllIs(u);
    var last := LastName(s.disk);
    LastUsable(s.disk, s.files);
    FileIsTorn(s.files, last);
    LiveNames(s.disk);
    HistoryNotLive(s.disk, last);
    var d := Started(s, gc);
    LoadedLast(s);
    CallAppends(d, c, LoadedFile(LastBytes(s)));
    var t := CallAndFlush(d, c);
    AppendRecovers(s, gc, t.files, c);
    RecoverSame(t.disk, s.disk, t.files);
  }

  lemma LoadedLast(s: State)
    requires s.disk.incr != [] && LastName(s.disk) in s.files && s.files[LastName(s.disk)].Log?
    ensures LoadedFiles(s.disk, s.files) == s.files[LastName(s.disk) := Log(LoadedFile(LastBytes(s)))]
  {
    hide LoadedFile;
  }

  lemma AppendRecovers(s: State, gc: bool, files: Files, c: Call)
    requires Recover(s.disk, s.files).Some? && s.disk.incr != [] && ValidCall(c) && c.what.Perform? && Ordered(s.disk)
    requires LastName(s.disk) in s.files && s.files[LastName(s.disk)] == Log(LastBytes(s)) && IsTorn(LastBytes(s))
    requires var loaded := LoadedFiles(s.disk, s.files);
             files == (if gc then loaded - Names(s.disk.history) else loaded)
                        [LastName(s.disk) := Log(LoadedFile(LastBytes(s)) + Enc(FeedCall(-1, c)))]
    ensures var file := LoadedFile(LastBytes(s)) + Enc(FeedCall(-1, c));
            Recover(s.disk, files) == Some(Recover(s.disk, s.files).value + [c.what.w]) && LoadLog(file).0.Loaded?
            <==> Resumable(LastBytes(s)) || (InNote(LastBytes(s)) && Joins(LastLine(LastBytes(s)), c))
  {
    hide Recover, Performed, Ordered, Live, Enc, Resumable, LoadedFile, LoadLog, ValidCall, RecoverWhole, WellFed,
      Retired, InNote, Joins, LastLine, FeedCall, LoadedFiles;
    var last, bytes := LastName(s.disk), LastBytes(s);
    var log, n: nat :| TornFrom(log, n, bytes);
    AppendNeedsResumable(log, n, c);
    LastUsable(s.disk, s.files);
    LastNotBefore(s.disk);
    LoadedLast(s);
    forall f | f in Live(BeforeLast(s.disk))
      ensures Agree(f, s.files, files)
    {
      LiveBefore(s.disk, f);
      HistoryNotLive(s.disk, f);
    }
    RecoverWholeFrame(BeforeLast(s.disk), s.files, files);
    var before := RecoverWhole(BeforeLast(s.disk), s.files).value;
    var file := LoadedFile(bytes) + Enc(FeedCall(-1, c));
    if LoadLog(file).0.Loaded? {
      LastRecovers(s.disk, files);
      SamePrefix(before, Performed(file), Performed(bytes), c.what.w);
    }
  }

  lemma LiveBefore(m: Manifest, f: FileName)
    requires f in Live(BeforeLast(m))
    ensures f in Live(m)
  {
    var i :| 0 <= i < |Live(BeforeLast(m))| && Live(BeforeLast(m))[i] == f;
    assert Live(m)[i] == f;
  }

  // ----- going on after a start that finds no INCR line -----

  /** The first write after such a start is kept. */
  ghost predicate FirstKept(s: State, gc: bool, c: Call)
    requires c.what.Perform?
  {
    var t := CallAndFlush(Started(s, gc), c);
    && Leads(Started(s, gc), CallSteps(c), t) && t.mem == Owed(s) + [c.what.w]
    && Recover(t.disk, t.files) == Some(t.mem)
    && LoadLog(BytesOf(t.files, IncrFile(1))).0.Loaded?
  }

  /** A start that finds no INCR line, and is right itself, appends to a file that the manifest did
      not name, and that was not truncated.  If that file loads to its end, the first write is
      kept exactly when the file does not end inside an annotation, or the write brings one that
      fits; otherwise there is a first write that is not kept. */
  lemma StartNeedsWholeFirst(s: State, gc: bool)
    requires Reachable(s) && s.disk.incr == [] && FirstNameFree(s, gc)
    ensures var bytes := BytesOf(s.files, IncrFile(1));
            && (LoadLog(bytes).0.Loaded? ==>
                  forall c: Call :: ValidCall(c) && c.what.Perform? ==>
                    (FirstKept(s, gc, c) <==> LastLine(bytes) == [] || Joins(LastLine(bytes), c)))
            && (!LoadLog(bytes).0.Loaded? ==> ValidCall(LOST_CALL) && !FirstKept(s, gc, LOST_CALL))
  {
    hide Inv, Reachable, Recover, Performed, Owed, LoadLog, ValidCall, FirstKept, LastLine, Joins, ReadBack, IsTorn,
      FeedCall;
    var bytes := BytesOf(s.files, IncrFile(1));
    ReachableInv(s);
    FirstIsTorn(s);
    AppendNeedsWhole(bytes);
    LostCallBytes();
    FirstReads(s, gc, LOST_CALL);
    forall c: Call | ValidCall(c) && c.what.Perform?
      ensures FirstKept(s, gc, c) <==> ReadBack(bytes, c)
    {
      FirstReads(s, gc, c);
    }
  }

  lemma FirstIsTorn(s: State)
    requires Inv(s)
    ensures IsTorn(BytesOf(s.files, IncrFile(1)))
  {
    hide Inv, IsTorn, FilesOk;
    DiskFacts(s);
    EmptyLog();
    if IncrFile(1) in s.files {
      FileIsTorn(s.files, IncrFile(1));
    }
  }

  /** The first call after such a start goes behind the bytes of that file. */
  lemma FirstAppends(s: State, gc: bool, c: Call)
    requires Inv(s) && s.disk.incr == [] && FirstNameFree(s, gc) && ValidCall(c) && c.what.Perform?
    ensures var d := Started(s, gc);
            var t := CallAndFlush(d, c);
            var file := BytesOf(s.files, IncrFile(1)) + Enc(FeedCall(-1, c));
            && Leads(d, CallSteps(c), t) && d.mem == Owed(s) && t.mem == d.mem + [c.what.w] && t.disk.incr == [1]
            && IncrFile(1) in t.files && t.files[IncrFile(1)] == Log(file)
            && Recover(t.disk, t.files) == if Usable(file) then Some(d.mem + Performed(file)) else None
  {
    hide Inv, Recover, Performed, Owed, LoadLog, ValidCall, Opened, DeleteAll, FilesOk, Ordered, Enc, CallAndFlush,
      FeedCall, Usable, Leads, CallSteps;
    DiskFacts(s);
    OpenedFirst(s, gc);
    var u, first, bytes := Opened(s, gc), IncrFile(1), BytesOf(s.files, IncrFile(1));
    DeleteAllIs(u);
    var d := Started(s, gc);
    FirstBytesThere(s, u);
    CallAppends(d, c, bytes);
    var t := CallAndFlush(d, c);
    BaseHolds(s.disk, s.files);
    BaseNotHistory(s.disk);
    OneIncrRecovers(t.disk, t.files, u.mem);
  }

  lemma FirstReads(s: State, gc: bool, c: Call)
    requires Inv(s) && s.disk.incr == [] && FirstNameFree(s, gc) && ValidCall(c) && c.what.Perform?
    ensures FirstKept(s, gc, c) <==> ReadBack(BytesOf(s.files, IncrFile(1)), c)
  {
    hide Inv, Recover, Performed, Owed, LoadLog, ValidCall, Started, FilesOk, Ordered, Enc, CallAndFlush, FeedCall,
      Usable, Leads, CallSteps;
    FirstAppends(s, gc, c);
    var d, file := Started(s, gc), BytesOf(s.files, IncrFile(1)) + Enc(FeedCall(-1, c));
    if LoadLog(file).0.Loaded? {
      LoadedUsable(file);
      SamePrefix(d.mem, Performed(file), [], c.what.w);
      assert d.mem + [] == d.mem && [] + [c.what.w] == [c.what.w];
    }
  }

  lemma LoadedUsable(bytes: string)
    requires LoadLog(bytes).0.Loaded?
    ensures Usable(bytes)
  {
    hide LoadLog;
  }

  lemma FirstBytesThere(s: State, u: State)
    requires FilesOk(s.files)
    requires var base := if s.disk.base.Some? then s.files else s.files[BaseFile(1) := Snapshot(u.mem)];
             u.files == if IncrFile(1) in s.files then base else base[IncrFile(1) := Log([])]
    ensures IncrFile(1) in u.files && u.files[IncrFile(1)] == Log(BytesOf(s.files, IncrFile(1)))
  {
  }

  lemma SamePrefix(a: seq<Write>, b: seq<Write>, c: seq<Write>, w: Write)
    ensures a + b == a + c + [w] <==> b == c + [w]
  {
    assert a + c + [w] == a + (c + [w]);
    if a + b == a + (c + [w]) {
      assert b == (a + b)[|a|..] && c + [w] == (a + (c + [w]))[|a|..];
    }
  }
}
