/** aof.c: the background rewrite as a step machine that may crash between any two steps.

    A database is the sequence of writes that produced it, each with the database number
    it ran in, so two equal databases are equal under every interpretation of commands.
    The files of the append-only directory, the manifest on disk and the server's memory
    are one state; a log file is its bytes; every system call that changes the disk is one
    step.  The last three fields of the state record history: no step depends on them.
  */
module AofRewrite {
  import opened Options
  import opened AofManifest
  import opened AofLog
  import AofCodec
  import AofFlush

  // ----- the state -----

  datatype Content = Snapshot(writes: seq<Write>) | Log(bytes: string)

  type Files = map<FileName, Content>

  /** aof_state */
  datatype Mode = Off | Wait | On

  /** The file behind aof_fd, whether it was opened in append mode, and the offset of the
      descriptor; an unlinked file can still be open. */
  datatype Fd = Closed | Open(name: FileName, append: bool, offset: nat) | Unlinked

  /** The rewrite child, with the database it was forked from. */
  datatype Child = NoChild | Running(snap: seq<Write>) | Finished(snap: seq<Write>)

  /** How far the main thread is in one of the multi-step operations. */
  datatype Phase =
    | Idle
    | Booting                                      // manifest and data loaded, log not open yet
    | BootOpened                                   // log opened, manifest not persisted yet
    | Creating(temp: Manifest)                     // the new INCR file exists
    | Created(temp: Manifest)                      // ... and the manifest on disk names it
    | ReadyToFork(starting: bool)                  // whether startAppendOnly waits for the outcome
    | BaseRenamed(temp: Manifest, snap: seq<Write>)
    | IncrRenamed(temp: Manifest, snap: seq<Write>)
    | Committed(temp: Manifest)                    // the manifest on disk is the new one
    | Deleting                                     // history files are being unlinked
    | Collecting                                   // ... because deletion has just been enabled

  datatype State = State(
    mode: Mode,
    phase: Phase,
    child: Child,
    gc: bool,               // history files are deleted: aof_disable_auto_gc is 0
    mem: seq<Write>,        // the database in memory
    buf: string,            // aof_buf
    selected: int,          // aof_selected_db
    fd: Fd,                 // aof_fd
    size: nat,              // aof_last_incr_size
    am: Manifest,           // server.aof_manifest
    disk: Manifest,         // the manifest file
    files: Files,
    before: seq<Write>,     // what the files before the open log hold
    fed: seq<Entry>,        // everything fed to the open log
    durable: seq<Write>     // what a restart must rebuild while no log is kept
  )

  /** Everything executed since the log was committed goes to the log. */
  predicate Logging(s: State) {
    (s.mode.On? && !s.phase.Booting?) || (s.mode.Wait? && (s.phase.Committed? || s.phase.Deleting?))
  }

  /** What a restart must rebuild: while there is a log, the commands wholly written to it, but
      for a transaction that is not closed yet. */
  function Owed(s: State): seq<Write> {
    if Logging(s) then s.before + Replay(Settled(Complete(s.fed, s.size))) else s.durable
  }

  // ----- recovery -----

  /** The loader accepts the file, perhaps after truncating it. */
  predicate Usable(bytes: string) {
    LoadLog(bytes).0 in {AofCodec.Loaded, AofCodec.ShortEnd, AofCodec.OpenMulti}
  }

  function RecoverBase(m: Manifest, files: Files): Option<seq<Write>> {
    if m.base.None? then Some([])
    else
      var name := BaseFile(m.base.value);
      if name in files && files[name].Snapshot? then Some(files[name].writes) else None
  }

  /** INCR files that are followed by others must load to their end. */
  function RecoverIncr(incr: seq<nat>, files: Files): Option<seq<Write>>
    decreases |incr|
  {
    if incr == [] then Some([])
    else
      var name := IncrFile(incr[|incr| - 1]);
      var before := RecoverIncr(incr[..|incr| - 1], files);
      if before.Some? && name in files && files[name].Log? && LoadLog(files[name].bytes).0.Loaded?
      then Some(before.value + Performed(files[name].bytes))
      else None
  }

  /** Loading the BASE file and then each INCR file to its end. */
  function RecoverWhole(m: Manifest, files: Files): Option<seq<Write>> {
    var base, incr := RecoverBase(m, files), RecoverIncr(m.incr, files);
    if base.Some? && incr.Some? then Some(base.value + incr.value) else None
  }

  function LastName(m: Manifest): FileName {
    if m.incr == [] then IncrFile(0) else IncrFile(m.incr[|m.incr| - 1])
  }

  /** The manifest without its last INCR file. */
  function BeforeLast(m: Manifest): Manifest {
    if m.incr == [] then m else m.(incr := m.incr[..|m.incr| - 1])
  }

  /** Loading the BASE file and then each INCR file, every one from a fresh client; only the last
      one may be torn. */
  function Recover(m: Manifest, files: Files): Option<seq<Write>> {
    if m.incr == [] then RecoverWhole(m, files)
    else
      var before, name := RecoverWhole(BeforeLast(m), files), LastName(m);
      if before.Some? && name in files && files[name].Log? && Usable(files[name].bytes)
      then Some(before.value + Performed(files[name].bytes))
      else None
  }

  /** The files after loading: a torn last INCR file has been truncated. */
  function LoadedFiles(m: Manifest, files: Files): Files {
    if m.incr != [] && LastName(m) in files && files[LastName(m)].Log?
    then files[LastName(m) := Log(LoadedFile(files[LastName(m)].bytes))]
    else files
  }

  // ----- the steps -----

  datatype Step =
    | FeedStep(calls: seq<Call>)
    | Flush(n: nat, truncateOk: bool)
    | ForgetDb
    | PersistManifest
    | CreateIncr
    | PersistIncr
    | PersistIncrFails
    | SwitchIncr
    | CreateTempIncr
    | SkipIncr
    | Fork
    | ForkFails
    | ChildWrites
    | ChildFails
    | RenameBase
    | RenameBaseFails
    | RenameIncr
    | RenameIncrFails
    | Commit
    | CommitFails
    | Install
    | DeleteHistory
    | PersistHistory
    | FinishHandler
    | EnableGc
    | FinishCollect
    | DisableGc
    | StopAof
    | StartLater
    | StartNow
    | Restart(gc: bool)
    | RestartOff(mem: seq<Write>, gc: bool)
    | BootOpen
    | BootPersist

  predicate LogOpen(s: State) {
    s.fd.Open? && s.fd.name in s.files && s.files[s.fd.name].Log?
  }

  function OpenBytes(s: State): string {
    if LogOpen(s) then s.files[s.fd.name].bytes else []
  }

  /** The open log as a flush sees it. */
  function OpenLog(s: State): AofFlush.Log {
    AofFlush.Log(s.fd.Open? && s.fd.append, OpenBytes(s), if s.fd.Open? then s.fd.offset else 0, s.size, s.buf)
  }

  /** The beginning of an annotation that a start found at the end of the log, until something is
      written behind it. */
  function Cut(s: State): string {
    if s.buf == [] then LastLine(OpenBytes(s)) else []
  }

  predicate Enabled(s: State, step: Step) {
    match step
    case FeedStep(calls) => s.phase.Idle? && Balanced(calls, false)
    case Flush(n, _) => s.phase.Idle? && LogOpen(s) && n <= |s.buf|
    case ForgetDb => s.phase.Idle?
    case PersistManifest => s.phase.Idle?
    case CreateIncr => s.phase.Idle? && s.mode.On? && s.child.NoChild?
    case PersistIncr => s.phase.Creating?
    case PersistIncrFails => s.phase.Creating?
    case SwitchIncr => s.phase.Created?
    case CreateTempIncr => s.phase.Idle? && s.mode.Wait? && s.child.NoChild?
    case SkipIncr => s.phase.Idle? && s.mode.Off? && s.child.NoChild?
    case Fork => s.phase.ReadyToFork?
    case ForkFails => s.phase.ReadyToFork?
    case ChildWrites => s.child.Running?
    case ChildFails => s.phase.Idle? && !s.child.NoChild?
    case RenameBase => s.phase.Idle? && s.child.Finished? && TempBase in s.files
    case RenameBaseFails => s.phase.Idle? && s.child.Finished?
    case RenameIncr => s.phase.BaseRenamed? && s.mode.Wait? && TempIncr in s.files
    case RenameIncrFails => s.phase.BaseRenamed? && s.mode.Wait?
    case Commit => if s.mode.Wait? then s.phase.IncrRenamed? else s.phase.BaseRenamed?
    case CommitFails => if s.mode.Wait? then s.phase.IncrRenamed? else s.phase.BaseRenamed?
    case Install => s.phase.Committed?
    case DeleteHistory => (s.phase.Deleting? || s.phase.Collecting?) && s.gc && s.am.history != []
    case PersistHistory => s.phase.Deleting? || s.phase.Collecting?
    case FinishHandler => s.phase.Deleting? && (s.gc ==> s.am.history == [])
    case EnableGc => s.phase.Idle? && !s.gc
    case FinishCollect => s.phase.Collecting? && s.am.history == []
    case DisableGc => s.phase.Idle? && s.gc
    case StopAof => s.phase.Idle? && !s.mode.Off?
    case StartLater => s.phase.Idle? && s.mode.Off?
    case StartNow => s.phase.Idle? && s.mode.Off?
    case Restart(_) => Recover(s.disk, s.files).Some?
    case RestartOff(_, _) => true
    case BootOpen => s.phase.Booting?
    case BootPersist => s.phase.BootOpened?
  }

  /** The clean-up at the end of a failed rewrite: while waiting for the first rewrite, the
      buffer is dropped and the temporary INCR file unlinked. */
  function CleanUp(s: State): State {
    var t := s.(phase := Idle, child := NoChild);
    if s.mode.Wait? then
      t.(buf := [], files := s.files - {TempIncr},
         fd := if s.fd.Open? && s.fd.name == TempIncr then Unlinked else s.fd)
    else t
  }

  /** propagateNow and feedAppendOnlyFile, for one or more commands. */
  function DoFeed(s: State, calls: seq<Call>): State {
    var t := s.(mem := s.mem + WritesOf(calls));
    if s.mode.Off? then t
    else
      var (entries, selected) := Feed(s.selected, calls);
      var u := t.(selected := selected);
      if s.mode.On? || !s.child.NoChild?
      then u.(buf := s.buf + Enc(entries), fed := s.fed + Joined(Cut(s), entries))
      else u
  }

  /** flushAppendOnlyFile, with `n` bytes getting out. */
  function DoFlush(s: State, n: nat, truncateOk: bool): State {
    if !LogOpen(s) || n > |s.buf| then s
    else
      var l := AofFlush.Flushed(OpenLog(s), n, truncateOk);
      s.(files := s.files[s.fd.name := Log(l.file)], fd := s.fd.(offset := l.offset), size := l.size, buf := l.buf)
  }

  /** openNewIncrAofForAppend while waiting for the first rewrite. */
  function OpenTemp(s: State, starting: bool): State {
    s.(selected := -1, files := s.files[TempIncr := Log([])], fd := Open(TempIncr, false, 0), size := 0, fed := [],
       phase := ReadyToFork(starting))
  }

  function DoRenameIncr(s: State): State {
    if !s.phase.BaseRenamed? || TempIncr !in s.files then s
    else
      var temp := NewIncr(s.phase.temp);
      var name := IncrFile(temp.incrSeq);
      s.(files := (s.files - {TempIncr})[name := s.files[TempIncr]],
         fd := if s.fd.Open? && s.fd.name == TempIncr then s.fd.(name := name) else s.fd,
         phase := IncrRenamed(temp, s.phase.snap))
  }

  /** The rewrite that is about to be committed: its manifest and its snapshot. */
  function Rewrite(s: State): (Manifest, seq<Write>) {
    if s.phase.BaseRenamed? || s.phase.IncrRenamed? then (s.phase.temp, s.phase.snap) else (s.am, s.mem)
  }

  function DoCommit(s: State): State {
    var (temp, snap) := Rewrite(s);
    var m := MarkRewritten(temp, !s.fd.Closed?);
    s.(disk := m, phase := Committed(m),
       before := if s.mode.Off? then s.before else snap,
       durable := if s.mode.Off? then snap else s.durable)
  }

  function DoCommitFails(s: State): State {
    var temp := Rewrite(s).0;
    var dropped := {BaseFile(temp.baseSeq)} + if s.mode.Wait? then {IncrFile(temp.incrSeq)} else {};
    CleanUp(s.(files := s.files - dropped, fd := if s.fd.Open? && s.fd.name in dropped then Unlinked else s.fd))
  }

  /** The memory of a freshly started server. */
  function Boot(s: State, gc: bool): State {
    s.(child := NoChild, gc := gc, buf := [], selected := -1, fd := Closed, size := 0, am := Reload(s.disk),
       before := [], fed := [], durable := Owed(s))
  }

  /** The first half of aofOpenIfNeededOnServerStart: the BASE file of an empty dataset. */
  function BootBase(s: State): State {
    if s.am.base.None? && s.am.incr == []
    then s.(files := s.files[BaseFile(s.am.baseSeq + 1) := Snapshot(s.mem)], am := NewBase(s.am))
    else s
  }

  function BytesOf(files: Files, name: FileName): string {
    if name in files && files[name].Log? then files[name].bytes else []
  }

  /** ... and the second: the last INCR file, or a new one, is opened in append mode. */
  ghost function BootLog(s: State): State {
    var am := if s.am.incr == [] then NewIncr(s.am) else s.am;
    var name := LastName(am);
    var files := if name in s.files then s.files else s.files[name := Log([])];
    var before := RecoverWhole(BeforeLast(am), files);
    s.(am := am, fd := Open(name, true, 0), files := files, size := |BytesOf(files, name)|, phase := BootOpened,
       before := if before.Some? then before.value else [], fed := EntriesOf(BytesOf(files, name)))
  }

  /** The new INCR file of a rewrite, truncated if it exists. */
  function DoCreateIncr(s: State): State {
    var temp := NewIncr(s.am);
    s.(selected := -1, files := s.files[IncrFile(temp.incrSeq) := Log([])], phase := Creating(temp))
  }

  function DoPersistIncr(s: State): State {
    if s.phase.Creating? then s.(disk := s.phase.temp, phase := Created(s.phase.temp)) else s
  }

  function DoSwitchIncr(s: State): State {
    var temp := if s.phase.Created? then s.phase.temp else s.am;
    s.(fd := Open(IncrFile(temp.incrSeq), false, 0), size := 0, am := temp, phase := ReadyToFork(false),
       before := s.before + Replay(s.fed), fed := [])
  }

  function DoFork(s: State): State {
    s.(child := Running(s.mem), phase := Idle)
  }

  /** startAppendOnly turns the log off again; its descriptor stays open. */
  function DoForkFails(s: State): State {
    s.(phase := Idle, mode := if s.phase == ReadyToFork(true) then Off else s.mode)
  }

  function DoChildWrites(s: State): State {
    if !s.child.Running? then s
    else s.(child := Finished(s.child.snap), files := s.files[TempBase := Snapshot(s.child.snap)])
  }

  function DoRenameBase(s: State): State {
    if !s.child.Finished? || TempBase !in s.files then s
    else
      var temp := NewBase(s.am);
      s.(files := (s.files - {TempBase})[BaseFile(temp.baseSeq) := s.files[TempBase]],
         phase := BaseRenamed(temp, s.child.snap), child := NoChild)
  }

  function DoInstall(s: State): State {
    if s.phase.Committed? then s.(am := s.phase.temp, phase := Deleting) else s
  }

  function DoDeleteHistory(s: State): State {
    if s.am.history == [] then s
    else s.(files := s.files - {s.am.history[0]}, am := s.am.(history := s.am.history[1..]))
  }

  function DoFinishHandler(s: State): State {
    s.(phase := Idle, mode := if s.mode.Wait? then On else s.mode)
  }

  function DoStopAof(s: State): State {
    s.(mode := Off, fd := Closed, size := 0, selected := -1, buf := [], child := NoChild, durable := Owed(s))
  }

  function DoRestart(s: State, gc: bool): State {
    var mem := Recover(s.disk, s.files);
    Boot(s, gc).(mode := On, phase := Booting, mem := if mem.Some? then mem.value else [],
                 files := LoadedFiles(s.disk, s.files))
  }

  function DoRestartOff(s: State, mem: seq<Write>, gc: bool): State {
    Boot(s, gc).(mode := Off, phase := Deleting, mem := mem)
  }

  ghost function Do(s: State, step: Step): State
    requires Enabled(s, step)
  {
    match step
    case FeedStep(calls) => DoFeed(s, calls)
    case Flush(n, truncateOk) => DoFlush(s, n, truncateOk)
    case ForgetDb => s.(selected := -1)
    case PersistManifest => s.(disk := s.am)
    case CreateIncr => DoCreateIncr(s)
    case PersistIncr => DoPersistIncr(s)
    case PersistIncrFails => s.(phase := Idle)
    case SwitchIncr => DoSwitchIncr(s)
    case CreateTempIncr => OpenTemp(s, false)
    case SkipIncr => s.(phase := ReadyToFork(false))
    case Fork => DoFork(s)
    case ForkFails => DoForkFails(s)
    case ChildWrites => DoChildWrites(s)
    case ChildFails => CleanUp(s)
    case RenameBase => DoRenameBase(s)
    case RenameBaseFails => CleanUp(s)
    case RenameIncr => DoRenameIncr(s)
    case RenameIncrFails => CleanUp(s.(files := s.files - {BaseFile(Rewrite(s).0.baseSeq)}))
    case Commit => DoCommit(s)
    case CommitFails => DoCommitFails(s)
    case Install => DoInstall(s)
    case DeleteHistory => DoDeleteHistory(s)
    case PersistHistory => s.(disk := s.am)
    case FinishHandler => DoFinishHandler(s)
    case EnableGc => s.(gc := true, phase := Collecting)
    case FinishCollect => s.(phase := Idle)
    case DisableGc => s.(gc := false)
    case StopAof => DoStopAof(s)
    case StartLater => s.(mode := Wait)
    case StartNow => OpenTemp(s.(mode := Wait, child := NoChild), true)
    case Restart(gc) => DoRestart(s, gc)
    case RestartOff(mem, gc) => DoRestartOff(s, mem, gc)
    case BootOpen => BootLog(BootBase(s))
    case BootPersist => s.(disk := s.am, phase := Deleting)
  }

  /** `steps`, one after the other, lead from `s` to `t`. */
  ghost predicate Leads(s: State, steps: seq<Step>, t: State)
    decreases |steps|
  {
    if steps == [] then s == t else Enabled(s, steps[0]) && Leads(Do(s, steps[0]), steps[1..], t)
  }
}
