/** What a start must find, and runs that break the promise of the rewrite. */
module AofRewriteFailures {
  import opened Options
  import opened AofManifest
  import opened AofLog
  import opened AofRewrite
  import opened AofCrashSafety
  import opened AofRewriteLimits
  import AofCodec
  import AofFlush

  // ----- careful runs -----

  /** A careful run leads from `s` to `t`. */
  ghost predicate CanReach(s: State, t: State) {
    exists steps :: CarefulRun(s, steps) && Run(s, steps) == t
  }

  lemma Here(s: State)
    ensures CanReach(s, s)
  {
    assert CarefulRun(s, []) && Run(s, []) == s;
  }

  lemma Via(s: State, step: Step, t: State)
    requires Enabled(s, step) && Careful(s, step) && CanReach(Do(s, step), t)
    ensures CanReach(s, t)
  {
    var rest :| CarefulRun(Do(s, step), rest) && Run(Do(s, step), rest) == t;
    hide Do, Enabled, Careful;
    var steps := [step] + rest;
    assert steps[1..] == rest;
    assert CarefulRun(s, steps) && Run(s, steps) == t;
  }

  lemma ReachKeepsInv(s: State, t: State)
    requires Inv(s) && CanReach(s, t)
    ensures Inv(t)
  {
    var steps :| CarefulRun(s, steps) && Run(s, steps) == t;
    hide Inv, CarefulRun, Run;
    RunKeeps(s, steps);
  }

  lemma ViaFinishHandler(s: State, t: State)
    requires s.phase.Deleting? && (s.gc ==> s.am.history == []) && CanReach(DoFinishHandler(s), t)
    ensures CanReach(s, t)
  {
    hide CanReach, DoFinishHandler;
    Via(s, FinishHandler, t);
  }

  lemma ViaCreateIncr(s: State, t: State)
    requires s.phase.Idle? && s.mode.On? && s.child.NoChild? && s.buf == [] && CanReach(DoCreateIncr(s), t)
    ensures CanReach(s, t)
  {
    hide CanReach, DoCreateIncr;
    Via(s, CreateIncr, t);
  }

  lemma ViaPersistIncr(s: State, t: State)
    requires s.phase.Creating? && CanReach(DoPersistIncr(s), t)
    ensures CanReach(s, t)
  {
    hide CanReach, DoPersistIncr;
    Via(s, PersistIncr, t);
  }

  lemma ViaSwitchIncr(s: State, t: State)
    requires s.phase.Created? && CanReach(DoSwitchIncr(s), t)
    ensures CanReach(s, t)
  {
    hide CanReach, DoSwitchIncr;
    Via(s, SwitchIncr, t);
  }

  lemma ViaForkFails(s: State, t: State)
    requires s.phase.ReadyToFork? && CanReach(DoForkFails(s), t)
    ensures CanReach(s, t)
  {
    hide CanReach, DoForkFails;
    Via(s, ForkFails, t);
  }

  lemma ViaEnableGc(s: State, t: State)
    requires s.phase.Idle? && !s.gc && CanReach(s.(gc := true, phase := Collecting), t)
    ensures CanReach(s, t)
  {
    hide CanReach;
    Via(s, EnableGc, t);
  }

  lemma ViaDeleteHistory(s: State, t: State)
    requires (s.phase.Deleting? || s.phase.Collecting?) && s.gc && s.am.history != []
    requires CanReach(DoDeleteHistory(s), t)
    ensures CanReach(s, t)
  {
    hide CanReach, DoDeleteHistory;
    Via(s, DeleteHistory, t);
  }

  lemma ViaStartNow(s: State, t: State)
    requires s.phase.Idle? && s.mode.Off? && CanReach(OpenTemp(s.(mode := Wait, child := NoChild), true), t)
    ensures CanReach(s, t)
  {
    hide CanReach, OpenTemp;
    Via(s, StartNow, t);
  }

  lemma ViaFork(s: State, t: State)
    requires s.phase.ReadyToFork? && CanReach(DoFork(s), t)
    ensures CanReach(s, t)
  {
    hide CanReach, DoFork;
    Via(s, Fork, t);
  }

  lemma ViaChildWrites(s: State, t: State)
    requires s.child.Running? && CanReach(DoChildWrites(s), t)
    ensures CanReach(s, t)
  {
    hide CanReach, DoChildWrites;
    Via(s, ChildWrites, t);
  }

  lemma ViaRenameBase(s: State, t: State)
    requires s.phase.Idle? && s.child.Finished? && TempBase in s.files && CanReach(DoRenameBase(s), t)
    ensures CanReach(s, t)
  {
    hide CanReach, DoRenameBase;
    Via(s, RenameBase, t);
  }

  lemma ViaRenameIncr(s: State, t: State)
    requires s.phase.BaseRenamed? && s.mode.Wait? && TempIncr in s.files && CanReach(DoRenameIncr(s), t)
    ensures CanReach(s, t)
  {
    hide CanReach, DoRenameIncr;
    Via(s, RenameIncr, t);
  }

  lemma ViaCommit(s: State, t: State)
    requires (if s.mode.Wait? then s.phase.IncrRenamed? else s.phase.BaseRenamed?) && CanReach(DoCommit(s), t)
    ensures CanReach(s, t)
  {
    hide CanReach, DoCommit;
    Via(s, Commit, t);
  }

  lemma ViaInstall(s: State, t: State)
    requires s.phase.Committed? && CanReach(DoInstall(s), t)
    ensures CanReach(s, t)
  {
    hide CanReach, DoInstall;
    Via(s, Install, t);
  }

  // ----- retired numbers that a start forgets -----

  /** The manifest on disk names a file that is not there. */
  ghost predicate Dangling(t: State, n: nat) {
    IncrFile(n) in Live(t.disk) && IncrFile(n) !in t.files
  }

  /** The next INCR file of a server whose forks fail. */
  function NextIncr(s: State): State {
    var t := ForkNow(s);
    t.(child := NoChild)
  }

  lemma NextIncrIs(s: State)
    ensures var t := NextIncr(s);
            && t == s.(selected := -1, am := t.am, disk := t.am, size := 0, fd := t.fd, before := t.before, fed := [],
                       phase := Idle, child := NoChild, files := t.files)
            && t.am == NewIncr(s.am)
  {
    hide Replay;
  }

  lemma ViaNextIncr(s: State, t: State)
    requires s.phase.Idle? && s.mode.On? && s.child.NoChild? && s.buf == [] && CanReach(NextIncr(s), t)
    ensures CanReach(s, t)
  {
    hide CanReach, Replay;
    var a := DoCreateIncr(s);
    var b := DoPersistIncr(a);
    var c := DoSwitchIncr(b);
    assert NextIncr(s) == c.(phase := Idle);
    ViaForkFails(c, t);
    ViaSwitchIncr(b, t);
    ViaPersistIncr(a, t);
    ViaCreateIncr(s, t);
  }

  lemma NamedIsLive(m: Manifest, n: nat)
    requires n in m.incr
    ensures IncrFile(n) in Live(m)
  {
    hide Live;
    LiveNames(m);
  }

  /** Deleting the history unlinks a live file that it names. */
  lemma {:induction false} DeletionUnlinks(s: State, n: nat) returns (t: State)
    requires (s.phase.Deleting? || s.phase.Collecting?) && s.gc && n in s.disk.incr && IncrFile(n) in s.am.history
    ensures CanReach(s, t) && Dangling(t, n)
    decreases |s.am.history|
  {
    hide CanReach, Live;
    var u := DoDeleteHistory(s);
    if s.am.history[0] == IncrFile(n) {
      t := u;
      NamedIsLive(t.disk, n);
      Here(t);
    } else {
      assert IncrFile(n) in u.am.history;
      t := DeletionUnlinks(u, n);
    }
    ViaDeleteHistory(s, t);
  }

  /** A server that counts up to a retired number makes it live again; deleting the history then
      unlinks it. */
  lemma {:induction false} CountingUnlinks(s: State, n: nat) returns (t: State)
    requires s.phase.Idle? && s.mode.On? && s.child.NoChild? && !s.gc && s.buf == [] && s.disk.incr == s.am.incr
    requires IncrFile(n) in s.am.history && s.am.incrSeq <= n && (s.am.incrSeq == n ==> n in s.am.incr)
    ensures CanReach(s, t) && Dangling(t, n)
    decreases n - s.am.incrSeq
  {
    hide CanReach, NextIncr, Dangling;
    if s.am.incrSeq == n {
      t := DeletionUnlinks(s.(gc := true, phase := Collecting), n);
      ViaEnableGc(s, t);
    } else {
      NextIncrIs(s);
      var u := NextIncr(s);
      assert u.am.incr[|u.am.incr| - 1] == s.am.incrSeq + 1;
      t := CountingUnlinks(u, n);
      ViaNextIncr(s, t);
    }
  }

  /** A start with the log on that keeps the history, and forgets a retired number. */
  lemma ForgottenNumberUnlinks(s: State, n: nat) returns (t: State)
    requires Reachable(s) && IncrFile(n) in s.disk.history && Reload(s.disk).incrSeq < n
    ensures CanReach(Opened(s, false), t) && Dangling(t, n)
  {
    hide Recover, Reachable, Opened, CanReach, LoadedFiles, Inv, Owed, FilesOk, Ordered, Dangling;
    ReachableInv(s);
    DiskFacts(s);
    var u := Opened(s, false);
    if s.disk.incr == [] {
      OpenedFirst(s, false);
      assert u.am.incr[0] == 1;
    } else {
      OpenedExisting(s, false);
    }
    t := CountingUnlinks(DoFinishHandler(u), n);
    ViaFinishHandler(u, t);
  }

  /** CONFIG SET appendonly yes, with a rewrite that works: StartNow, Fork, ChildWrites, RenameBase,
      RenameIncr, Commit, Install and FinishHandler. */
  function SwitchOn(s: State): State {
    var a := DoFork(OpenTemp(s.(mode := Wait, child := NoChild), true));
    var b := DoCommit(DoRenameIncr(DoRenameBase(DoChildWrites(a))));
    DoFinishHandler(DoInstall(b))
  }

  lemma SwitchedManifest(am: Manifest)
    ensures var m := NewIncr(NewBase(am));
            var r := MarkRewritten(m, true);
            && r.incr == [am.incrSeq + 1] && r.incrSeq == am.incrSeq + 1
            && forall f :: f in am.history ==> f in r.history
  {
    var m := NewIncr(NewBase(am));
    MarkKeepsLast(m);
    assert forall f :: f in am.history ==> f in m.history;
  }

  lemma SwitchOnIs(s: State)
    requires s.am.base.Some? || s.am.incr == []
    ensures var t := SwitchOn(s);
            && t.phase.Idle? && t.mode.On? && t.child.NoChild? && t.gc == s.gc && t.disk == t.am && t.buf == s.buf
            && t.am.incr == [s.am.incrSeq + 1] && t.am.incrSeq == s.am.incrSeq + 1
            && forall f :: f in s.am.history ==> f in t.am.history
  {
    hide MarkRewritten, NewIncr, NewBase;
    var m := NewIncr(NewBase(s.am));
    SwitchedManifest(s.am);
  }

  lemma ViaSwitchOn(s: State, t: State)
    requires s.phase.Idle? && s.mode.Off? && !s.gc && CanReach(SwitchOn(s), t)
    ensures CanReach(s, t)
  {
    hide CanReach, MarkRewritten, NewIncr, NewBase;
    var a := OpenTemp(s.(mode := Wait, child := NoChild), true);
    var b := DoFork(a);
    var c := DoChildWrites(b);
    var d := DoRenameBase(c);
    var e := DoRenameIncr(d);
    var f := DoCommit(e);
    var g := DoInstall(f);
    ViaFinishHandler(g, t);
    ViaInstall(f, t);
    ViaCommit(e, t);
    ViaRenameIncr(d, t);
    ViaRenameBase(c, t);
    ViaChildWrites(b, t);
    ViaFork(a, t);
    ViaStartNow(s, t);
  }

  /** A start with the log off that keeps the history, and forgets a retired number. */
  lemma ForgottenOffUnlinks(s: State, mem: seq<Write>, n: nat) returns (t: State)
    requires Reachable(s) && IncrFile(n) in s.disk.history && Reload(s.disk).incrSeq < n
    ensures CanReach(DoRestartOff(s, mem, false), t) && Dangling(t, n)
  {
    hide Reachable, Inv, SwitchOn, Recover, Owed, CanReach, Dangling;
    ReachableInv(s);
    HistoryHasBase(s, n);
    var u := DoRestartOff(s, mem, false);
    var v := DoFinishHandler(u);
    SwitchOnIs(v);
    var x := SwitchOn(v);
    assert n >= x.am.incrSeq && (n == x.am.incrSeq ==> x.am.incr[0] == n);
    t := CountingUnlinks(x, n);
    ViaSwitchOn(v, t);
    ViaFinishHandler(u, t);
  }

  lemma HistoryHasBase(s: State, n: nat)
    requires Inv(s) && IncrFile(n) in s.disk.history
    ensures s.disk.base.Some?
  {
    hide Recover, PhaseOk, HistoryOk, FilesOk;
  }

  /** A live file that is not there. */
  lemma {:induction false} MissingIncr(incr: seq<nat>, i: nat, files: Files)
    requires i < |incr| && IncrFile(incr[i]) !in files
    ensures RecoverIncr(incr, files).None?
    decreases |incr|
  {
    hide LoadLog, Performed;
    if i < |incr| - 1 {
      MissingIncr(incr[..|incr| - 1], i, files);
    }
  }

  lemma DanglingBreaks(t: State, n: nat)
    requires Dangling(t, n)
    ensures Recover(t.disk, t.files).None?
  {
    hide LoadLog, Performed, RecoverIncr;
    var m := t.disk;
    if n !in m.incr {
      NotLive(m, IncrFile(n));
    }
    var i :| 0 <= i < |m.incr| && m.incr[i] == n;
    if i < |m.incr| - 1 {
      MissingIncr(m.incr[..|m.incr| - 1], i, t.files);
    }
  }

  lemma Forgotten(s: State, gc: bool) returns (n: nat)
    requires !Collects(s, gc)
    ensures !gc && IncrFile(n) in s.disk.history && Reload(s.disk).incrSeq < n
  {
    var f :| f in s.disk.history && f.IncrFile? && f.n > Reload(s.disk).incrSeq;
    n := f.n;
  }

  /** Every careful continuation recovers what is owed. */
  ghost predicate AlwaysOwed(s: State) {
    forall t :: CanReach(s, t) ==> Recover(t.disk, t.files) == Some(Owed(t))
  }

  lemma InvAlwaysOwed(s: State)
    requires Inv(s)
    ensures AlwaysOwed(s)
  {
    hide Inv, CanReach, Recover, Owed;
    forall t | CanReach(s, t)
      ensures Recover(t.disk, t.files) == Some(Owed(t))
    {
      ReachKeepsInv(s, t);
      DiskFacts(t);
    }
  }

  /** A start with the log off is safe for every careful run behind it exactly when it deletes
      the history or remembers its numbers; otherwise one of these runs unlinks a live file. */
  lemma OffStartNeedsHistory(s: State, mem: seq<Write>, gc: bool)
    requires Reachable(s)
    ensures AlwaysOwed(DoRestartOff(s, mem, gc)) <==> Collects(s, gc)
    ensures !Collects(s, gc) ==> exists t, n :: CanReach(DoRestartOff(s, mem, gc), t) && Dangling(t, n)
  {
    hide Reachable, Recover, Owed, CanReach, DoRestartOff, Collects, Dangling, Inv;
    if Collects(s, gc) {
      ReachableInv(s);
      RestartOffKeeps(s, mem, gc);
      InvAlwaysOwed(DoRestartOff(s, mem, gc));
    } else {
      var n := Forgotten(s, gc);
      var t := ForgottenOffUnlinks(s, mem, n);
      DanglingBreaks(t, n);
    }
  }

  // ----- starts with the log on -----

  /** A start with the log on finds files that it can go on with. */
  ghost predicate Resumes(s: State) {
    if s.disk.incr == [] then FirstFree(s) else Continuable(LastBytes(s))
  }

  lemma CarefulStart(s: State, gc: bool)
    ensures Careful(s, Restart(gc)) <==> Resumes(s) && Collects(s, gc)
  {
    hide FirstFree, Continuable, Collects;
  }

  lemma OpenedInv(s: State, gc: bool)
    requires Inv(s) && Careful(s, Restart(gc))
    ensures Inv(Opened(s, gc))
  {
    hide Inv, Careful, DoRestart, BootLog, BootBase, Recover, Owed;
    DiskFacts(s);
    RestartKeeps(s, gc);
    BootPhases(s, gc);
    var a := DoRestart(s, gc);
    BootOpenKeeps(a);
    BootPhases(BootBase(a), gc);
    BootPersistKeeps(BootLog(BootBase(a)));
  }

  /** The same of a start with the log on, if it finds files that it can go on with. */
  lemma StartNeedsHistory(s: State, gc: bool)
    requires Reachable(s) && Resumes(s)
    ensures AlwaysOwed(Opened(s, gc)) <==> Collects(s, gc)
    ensures !Collects(s, gc) ==> exists t, n :: CanReach(Opened(s, gc), t) && Dangling(t, n)
  {
    hide Reachable, Recover, Owed, CanReach, Opened, Collects, Dangling, Inv, Resumes;
    ReachableInv(s);
    CarefulStart(s, gc);
    if Collects(s, gc) {
      OpenedInv(s, gc);
      InvAlwaysOwed(Opened(s, gc));
    } else {
      var n := Forgotten(s, gc);
      var t := ForgottenNumberUnlinks(s, n);
      DanglingBreaks(t, n);
    }
  }

  /** The files can be loaded, and while there is a log and nothing is left in the buffer, they
      give what is in memory. */
  ghost predicate Kept(t: State) {
    var r := Recover(t.disk, t.files);
    r.Some? && (Logging(t) && t.buf == [] ==> r == Some(t.mem))
  }

  ghost predicate AlwaysKept(s: State) {
    forall t :: CanReach(s, t) ==> Kept(t)
  }

  lemma InvAlwaysKept(s: State)
    requires Inv(s)
    ensures AlwaysKept(s)
  {
    hide Inv, CanReach, Recover, Owed, Logging;
    forall t | CanReach(s, t)
      ensures Kept(t)
    {
      ReachKeepsInv(s, t);
      InvariantFacts(t);
    }
  }

  /** A file that does not load to its end, before the last one. */
  lemma NotLast(m: Manifest, files: Files, files': Files)
    requires m.incr != [] && LastName(m) in files && files[LastName(m)].Log?
    requires !LoadLog(files[LastName(m)].bytes).0.Loaded? && Ordered(m)
    requires files' == files[IncrFile(m.incrSeq + 1) := Log([])]
    ensures Recover(NewIncr(m), files').None?
  {
    hide LoadLog, Performed, Usable;
    var n := NewIncr(m);
    assert BeforeLast(n).incr == m.incr;
    assert LastName(m) in files' && files'[LastName(m)] == files[LastName(m)];
  }

  /** The server after its next rewrite has named a new INCR file: FinishHandler, CreateIncr and
      PersistIncr. */
  function NextNamed(s: State): State {
    DoPersistIncr(DoCreateIncr(DoFinishHandler(s)))
  }

  lemma ViaNextNamed(s: State)
    requires s.phase.Deleting? && s.mode.On? && s.child.NoChild? && s.buf == [] && (s.gc ==> s.am.history == [])
    ensures CanReach(s, NextNamed(s))
  {
    hide CanReach;
    var a := DoFinishHandler(s);
    var b := DoCreateIncr(a);
    var t := DoPersistIncr(b);
    Here(t);
    ViaPersistIncr(b, t);
    ViaCreateIncr(a, t);
    ViaFinishHandler(s, t);
  }

  lemma {:induction false} ViaDeleteAll(s: State, t: State)
    requires s.phase.Deleting? && s.gc && CanReach(DeleteAll(s), t)
    ensures CanReach(s, t)
    decreases |s.am.history|
  {
    hide CanReach;
    if s.am.history != [] {
      ViaDeleteAll(DoDeleteHistory(s), t);
      ViaDeleteHistory(s, t);
    }
  }

  /** A server whose last INCR file does not load to its end: the next rewrite puts another file
      behind it. */
  lemma TornBreaks(u: State) returns (t: State)
    requires u.phase.Deleting? && u.mode.On? && u.child.NoChild? && u.buf == [] && u.disk == u.am && Ordered(u.am)
    requires u.am.incr != [] && LastName(u.am) in u.files && u.files[LastName(u.am)].Log?
    requires !LoadLog(u.files[LastName(u.am)].bytes).0.Loaded?
    ensures CanReach(u, t) && Recover(t.disk, t.files).None?
  {
    hide CanReach, Recover, LoadLog, DeleteAll, Ordered, Live;
    var d := if u.gc then DeleteAll(u) else u;
    if u.gc {
      DeleteAllIs(u);
      LiveNames(u.am);
      HistoryNotLive(u.am, LastName(u.am));
    }
    t := NextNamed(d);
    ViaNextNamed(d);
    if u.gc {
      ViaDeleteAll(u, t);
    }
    OrderedLess(u.am, d.am);
    NotLast(d.am, d.files, t.files);
  }

  lemma OrderedLess(m: Manifest, n: Manifest)
    requires Ordered(m) && (n == m || n == m.(history := []))
    ensures Ordered(n)
  {
  }

  /** What a start must find, exactly: every careful run behind a start with the log on keeps its
      promise if and only if the start is careful. */
  lemma StartNeedsCare(s: State, gc: bool)
    requires Reachable(s)
    ensures AlwaysKept(Opened(s, gc)) <==> Careful(s, Restart(gc))
  {
    hide Reachable, Recover, Owed, CanReach, Opened, Collects, Dangling, Inv, Careful, Logging, FirstFree, Continuable;
    ReachableInv(s);
    CarefulStart(s, gc);
    if Careful(s, Restart(gc)) {
      OpenedInv(s, gc);
      InvAlwaysKept(Opened(s, gc));
    } else if !Collects(s, gc) {
      var n := Forgotten(s, gc);
      var t := ForgottenNumberUnlinks(s, n);
      DanglingBreaks(t, n);
    } else if s.disk.incr == [] {
      var t := FirstBreaks(s, gc);
    } else {
      var t := LastBreaks(s, gc);
    }
  }

  lemma LastBreaks(s: State, gc: bool) returns (t: State)
    requires Reachable(s) && s.disk.incr != [] && !Resumes(s)
    ensures CanReach(Opened(s, gc), t) && Recover(t.disk, t.files).None?
  {
    hide Reachable, Recover, Owed, CanReach, Opened, Inv, FilesOk, Ordered, LoadLog, LoadedFile, LoadedFiles;
    ReachableInv(s);
    DiskFacts(s);
    OpenedExisting(s, gc);
    LastThere(s.disk, s.files);
    LoadedLast(s);
    ReloadWellFormed(s.disk);
    var u := Opened(s, gc);
    assert LastName(u.am) == LastName(s.disk);
    t := TornBreaks(u);
  }

  lemma FirstBreaks(s: State, gc: bool) returns (t: State)
    requires Reachable(s) && s.disk.incr == [] && !FirstFree(s) && Collects(s, gc)
    ensures CanReach(Opened(s, gc), t) && !Kept(t)
  {
    hide Reachable, Recover, Owed, CanReach, Opened, Inv, FilesOk, Ordered, LoadLog, Performed, Logging, Collects,
      Dangling, BytesOf, Kept;
    ReachableInv(s);
    DiskFacts(s);
    OpenedFirst(s, gc);
    var u, first := Opened(s, gc), IncrFile(1);
    if first in s.disk.history {
      FirstForgotten(s, gc);
      assert u.disk.incr[0] == 1;
      t := DeletionUnlinks(u, 1);
      DanglingBreaks(t, 1);
      NotKept(t);
    } else if !LoadLog(BytesOf(s.files, first)).0.Loaded? {
      t := FirstTorn(s, gc, u);
      NotKept(t);
    } else {
      t := u;
      Here(t);
      FirstPerforms(s, gc, u);
    }
  }

  lemma NotKept(t: State)
    requires Recover(t.disk, t.files).None?
    ensures !Kept(t)
  {
    hide Recover;
  }

  lemma FirstTorn(s: State, gc: bool, u: State) returns (t: State)
    requires Ordered(s.disk) && FilesOk(s.files) && Recover(s.disk, s.files).Some? && s.disk.incr == []
    requires u == Opened(s, gc) && IncrFile(1) !in s.disk.history
    requires !LoadLog(BytesOf(s.files, IncrFile(1))).0.Loaded?
    ensures CanReach(u, t) && Recover(t.disk, t.files).None?
  {
    hide Recover, CanReach, Opened, FilesOk, Ordered, LoadLog;
    OpenedFirst(s, gc);
    EmptyLog();
    FirstThere(s);
    FirstOrdered(s.disk, u.am);
    t := TornBreaks(u);
  }

  lemma FirstThere(s: State)
    requires BytesOf(s.files, IncrFile(1)) != []
    ensures IncrFile(1) in s.files && s.files[IncrFile(1)].Log?
  {
  }

  lemma FirstForgotten(s: State, gc: bool)
    requires s.disk.incr == [] && IncrFile(1) in s.disk.history && Collects(s, gc)
    ensures gc
  {
    assert Reload(s.disk).history == s.disk.history && Reload(s.disk).incrSeq == 0;
  }

  lemma FirstOrdered(m: Manifest, n: Manifest)
    requires Ordered(m) && m.incr == [] && IncrFile(1) !in m.history
    requires n.incr == [1] && n.incrSeq == 1 && n.history == m.history
    requires n.base == (if m.base.Some? then m.base else Some(1)) && n.base.value == n.baseSeq
    ensures Ordered(n)
  {
    forall f | f in n.history
      ensures Retired(n, f)
    {
      assert Retired(m, f);
    }
  }

  /** The first INCR file performs something that is in memory already, or was never done. */
  lemma FirstPerforms(s: State, gc: bool, u: State)
    requires Ordered(s.disk) && FilesOk(s.files) && Recover(s.disk, s.files).Some? && s.disk.incr == []
    requires u == Opened(s, gc) && Performed(BytesOf(s.files, IncrFile(1))) != []
    ensures !Kept(u)
  {
    hide Recover, FilesOk, Ordered, Performed, Opened, BytesOf;
    OpenedFirst(s, gc);
    StartFirst(s, false, u);
  }

  // ----- switching the log on in a transaction while an older child is running -----

  /** StartLater, RenameBase, RenameIncr and Commit. */
  function LateStart(s: State): State {
    DoCommit(DoRenameIncr(DoRenameBase(s.(mode := Wait))))
  }

  /** The child knows nothing of what was executed since its fork, and a temporary INCR file of an
      earlier time is renamed as if it belonged to it: recovery gives the snapshot and what that
      file performs, so it is right exactly when that is all of memory. */
  lemma LateStartNeedsNoChild(s: State)
    requires Reachable(s) && Enabled(s, StartLater) && s.child.Finished? && TempIncr in s.files
    ensures TempBase in s.files && Leads(s, [StartLater, RenameBase, RenameIncr, Commit], LateStart(s))
    ensures var t := LateStart(s);
            var stale := if s.fd.Closed? then [] else Performed(BytesOf(s.files, TempIncr));
            t.mem == s.mem && Recover(t.disk, t.files) == Some(s.child.snap + stale)
  {
    hide Reachable, Recover, Performed, Inv, Leads, LoadLog, LoadedFile, Usable, LateStart, MarkRewritten;
    ReachableInv(s);
    ChildFile(s);
    LateStartRuns(s);
    LateStartIs(s);
    var t := LateStart(s);
    if s.fd.Closed? {
      MarkKeepsNone(NewIncr(NewBase(s.am)), false);
      BaseAlone(t.disk, t.files, s.child.snap);
      assert s.child.snap + [] == s.child.snap;
    } else {
      MarkKeepsLast(NewIncr(NewBase(s.am)));
      OneIncrRecovers(t.disk, t.files, s.child.snap);
      TempUsable(s);
    }
  }

  /** ... and to the end of the handler: Install, DeleteHistory for every name, and FinishHandler. */
  function LateFinished(s: State): State {
    var a := DoInstall(LateStart(s));
    DoFinishHandler(if s.gc then DeleteAll(a) else a)
  }

  function LateSteps(s: State): seq<Step> {
    [Install] + ((if s.gc then Deletions(|LateStart(s).disk.history|) else []) + [FinishHandler])
  }

  /** If no log was open before, the late start leaves a server that is on and has none: nothing
      that it executes from now on can be written. */
  lemma LateStartLeavesNoLog(s: State)
    requires Reachable(s) && Enabled(s, StartLater) && s.child.Finished? && TempIncr in s.files && s.fd.Closed?
    ensures Leads(LateStart(s), LateSteps(s), LateFinished(s))
    ensures var u := LateFinished(s);
            && u.mode.On? && u.phase.Idle? && u.fd.Closed? && u.am.incr == [] && u.mem == s.mem
            && forall calls :: Balanced(calls, false) ==>
                 var v := DoFeed(u, calls);
                 && v.mem == u.mem + WritesOf(calls) && v.disk == u.disk && v.files == u.files
                 && forall n, truncateOk :: !Enabled(v, Flush(n, truncateOk))
  {
    hide Reachable, Inv, Leads, LateStart, MarkRewritten, DoFeed, Balanced, WritesOf, DeleteAll;
    ReachableInv(s);
    ChildFile(s);
    LateStartIs(s);
    LateEnds(s);
    MarkKeepsNone(NewIncr(NewBase(s.am)), false);
    var b := LateStart(s);
    var a := DoInstall(b);
    DeleteAllIs(a);
    LateFinishes(s, a);
    var u := LateFinished(s);
    forall calls | Balanced(calls, false)
      ensures var v := DoFeed(u, calls);
              && v.mem == u.mem + WritesOf(calls) && v.disk == u.disk && v.files == u.files
              && forall n, truncateOk :: !Enabled(v, Flush(n, truncateOk))
    {
      FeedFrame(u, calls);
    }
  }

  lemma LateEnds(s: State)
    requires s.child.Finished? && TempBase in s.files && TempIncr in s.files
    ensures var t := LateStart(s);
            && t.phase == Committed(t.disk) && t.mode.Wait? && t.gc == s.gc && (s.fd.Closed? ==> t.fd.Closed?)
  {
    hide MarkRewritten, NewIncr, NewBase;
  }

  lemma LateFinishes(s: State, a: State)
    requires var b := LateStart(s); b.phase == Committed(b.disk) && b.gc == s.gc && a == DoInstall(b)
    ensures Leads(LateStart(s), LateSteps(s), LateFinished(s))
  {
    hide Leads, LateStart, DeleteAll;
    var b, u := LateStart(s), LateFinished(s);
    var d := if s.gc then DeleteAll(a) else a;
    DeleteAllIs(a);
    Arrived(u);
    TakeFinishHandler(d, [], u);
    var last := [FinishHandler];
    assert [FinishHandler] + [] == last;
    var mid := if s.gc then Deletions(|b.disk.history|) else [];
    if s.gc {
      DeleteAllThen(a, last, u);
    } else {
      assert [] + last == last;
    }
    TakeInstall(b, mid + last, u);
  }

  lemma {:induction false} DeleteAllThen(s: State, rest: seq<Step>, t: State)
    requires s.phase.Deleting? && s.gc && Leads(DeleteAll(s), rest, t)
    ensures Leads(s, Deletions(|s.am.history|) + rest, t)
    decreases |s.am.history|
  {
    hide Leads;
    if s.am.history == [] {
      assert Deletions(0) + rest == rest;
    } else {
      var u := DoDeleteHistory(s);
      DeleteAllThen(u, rest, t);
      TakeDeleteHistory(s, Deletions(|u.am.history|) + rest, t);
      assert [DeleteHistory] + (Deletions(|u.am.history|) + rest) == Deletions(|s.am.history|) + rest;
    }
  }

  lemma ChildFile(s: State)
    requires Inv(s) && s.phase.Idle? && s.child.Finished?
    ensures TempBase in s.files && s.files[TempBase] == Snapshot(s.child.snap)
  {
    hide Recover, HistoryOk, FilesOk, Ordered, LogOk, WaitOk, Harmless;
  }

  lemma TempUsable(s: State)
    requires Inv(s) && TempIncr in s.files
    ensures s.files[TempIncr].Log? && Usable(s.files[TempIncr].bytes)
  {
    hide Recover, HistoryOk, PhaseOk, IsTorn, Usable;
    FileIsTorn(s.files, TempIncr);
    TornUsable(s.files[TempIncr].bytes);
  }

  lemma LateStartIs(s: State)
    requires s.child.Finished? && TempBase in s.files && TempIncr in s.files
             && s.files[TempBase] == Snapshot(s.child.snap)
    ensures var t := LateStart(s);
            && t.mem == s.mem && t.disk == MarkRewritten(NewIncr(NewBase(s.am)), !s.fd.Closed?)
            && BaseFile(s.am.baseSeq + 1) in t.files && t.files[BaseFile(s.am.baseSeq + 1)] == Snapshot(s.child.snap)
            && IncrFile(s.am.incrSeq + 1) in t.files && t.files[IncrFile(s.am.incrSeq + 1)] == s.files[TempIncr]
  {
    hide MarkRewritten;
  }

  lemma TakeStartLater(s: State, rest: seq<Step>, t: State)
    requires s.phase.Idle? && s.mode.Off? && Leads(s.(mode := Wait), rest, t)
    ensures Leads(s, [StartLater] + rest, t)
  {
    hide Leads;
    Take(s, StartLater, rest, t);
  }

  lemma LatePhases(s: State)
    requires s.phase.Idle? && s.mode.Wait? && s.child.Finished? && TempBase in s.files && TempIncr in s.files
    ensures var b := DoRenameBase(s);
            && b.phase.BaseRenamed? && b.mode.Wait? && TempIncr in b.files
            && DoRenameIncr(b).phase.IncrRenamed? && DoRenameIncr(b).mode.Wait?
  {
    hide NewBase, NewIncr;
  }

  lemma LateStartRuns(s: State)
    requires s.phase.Idle? && s.mode.Off? && s.child.Finished? && TempBase in s.files && TempIncr in s.files
    ensures Leads(s, [StartLater, RenameBase, RenameIncr, Commit], LateStart(s))
  {
    hide Leads, DoCommit, DoRenameBase, DoRenameIncr;
    var a := s.(mode := Wait);
    var b := DoRenameBase(a);
    var c := DoRenameIncr(b);
    var t := LateStart(s);
    LatePhases(a);
    Arrived(t);
    TakeCommit(c, [], t);
    TakeRenameIncr(b, [Commit] + [], t);
    TakeRenameBase(a, [RenameIncr] + ([Commit] + []), t);
    assert [RenameBase] + ([RenameIncr] + ([Commit] + [])) == [RenameBase, RenameIncr, Commit];
    TakeStartLater(s, [RenameBase, RenameIncr, Commit], t);
    assert [StartLater] + [RenameBase, RenameIncr, Commit] == [StartLater, RenameBase, RenameIncr, Commit];
  }
}
