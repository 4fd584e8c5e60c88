/** aof.c: writing the append-only buffer to the open log file, with short writes, write
    errors and failed truncations.

    The file is modelled with its descriptor: a write goes to the descriptor's offset unless
    the file was opened in append mode, and ftruncate does not move the offset.  At start-up
    the log is opened in append mode (aof.c:759); a log created by a rewrite is not
    (aof.c:823).
  */
module AofFlush {
  import opened Stdio

  /** The open log and the buffer: `size` is aof_last_incr_size. */
  datatype Log = Log(append: bool, file: string, offset: nat, size: nat, buf: string)

  function Zeros(n: nat): (z: string)
    ensures |z| == n && forall i :: 0 <= i < n ==> z[i] == NUL
  {
    seq(n, i => NUL)
  }

  /** The first `p` bytes, with zeros behind the end of the file. */
  function Truncated(file: string, p: nat): (head: string)
    ensures |head| == p
  {
    if p <= |file| then file[..p] else file + Zeros(p - |file|)
  }

  function Rest(file: string, p: nat): string {
    if p < |file| then file[p..] else []
  }

  /** Writing `data` at position `p`: a gap is filled with zeros, what is there is replaced. */
  function Overwrite(file: string, p: nat, data: string): string {
    if data == [] then file else Truncated(file, p) + data + Rest(file, p + |data|)
  }

  /** Where the next write goes. */
  function Position(l: Log): nat {
    if l.append then |l.file| else l.offset
  }

  /** One write of `data`. */
  function Put(l: Log, data: string): Log {
    if data == [] then l
    else l.(file := Overwrite(l.file, Position(l), data), offset := Position(l) + |data|)
  }

  /** The first `n` bytes of the buffer are in the file. */
  function Written(l: Log, n: nat): Log
    requires n <= |l.buf|
  {
    Put(l, l.buf[..n])
  }

  /** The log after a flush that got `n` bytes out, given whether ftruncate would work. */
  function Flushed(l: Log, n: nat, truncateOk: bool): Log
    requires n <= |l.buf|
  {
    var w := Written(l, n);
    if n == |l.buf| then w.(size := l.size + n, buf := [])
    else if n > 0 && truncateOk then w.(file := Truncated(w.file, l.size))
    else w.(size := l.size + n, buf := l.buf[n..])
  }

  /** ... and when it ends the process because the write did not complete: nothing is accounted. */
  function Abandoned(l: Log, n: nat, truncateOk: bool): Log
    requires n <= |l.buf|
  {
    Flushed(l, n, truncateOk).(size := l.size, buf := l.buf)
  }

  // ----- the code -----

  datatype Policy = Always | EverySec | No

  /** One call of write(2): some bytes, an interruption, or an error. */
  datatype Call = Wrote(n: nat) | Interrupted | Failed

  /** What a flush finds: the clock, the configuration, the background work, and what the
      system calls will return.  When the list of calls runs out, writing succeeds. */
  datatype Env = Env(force: bool, now: int, policy: Policy, syncInProgress: bool, childActive: bool,
                     noFsyncOnRewrite: bool, calls: seq<Call>, truncateOk: bool, fsyncOk: bool)

  /** How many of `len` bytes the calls, from the `i`-th on, get out before an error. */
  function Accepted(len: nat, calls: seq<Call>, i: nat := 0): (n: nat)
    requires i <= |calls|
    ensures n <= len
    decreases |calls| - i
  {
    if len == 0 then 0
    else if i == |calls| then len
    else match calls[i]
         case Interrupted => Accepted(len, calls, i + 1)
         case Failed => 0
         case Wrote(n) => if n < len then n + Accepted(len - n, calls, i + 1) else len
  }

  /** Whether the end of a flush starts an fsync. */
  predicate FsyncDue(env: Env, lastFsync: int) {
    && !(env.noFsyncOnRewrite && env.childActive)
    && (env.policy.Always? || (env.policy.EverySec? && env.now - lastFsync >= 1000))
  }

  class Aof {
    var append: bool
    var file: string
    var offset: nat
    var aofBuf: string
    var lastIncrSize: nat
    var currentSize: nat
    var lastIncrFsyncOffset: nat
    var lastWriteOk: bool
    var postponedStart: int
    var lastFsync: int
    ghost var fed: string  // everything fed since the file was opened

    ghost function View(): Log
      reads this
    {
      Log(append, file, offset, lastIncrSize, aofBuf)
    }

    /** A log that has just been opened, empty. */
    constructor (appendMode: bool)
      ensures View() == Log(appendMode, [], 0, 0, []) && fed == []
      ensures lastIncrFsyncOffset == 0 && lastWriteOk && postponedStart == 0
    {
      append, file, offset, aofBuf, lastIncrSize, currentSize := appendMode, [], 0, [], 0, 0;
      lastIncrFsyncOffset, lastWriteOk, postponedStart, lastFsync := 0, true, 0, 0;
      fed := [];
    }

    /** The end of feedAppendOnlyFile. */
    method Feed(bytes: string)
      modifies `aofBuf, `fed
      ensures aofBuf == old(aofBuf) + bytes && fed == old(fed) + bytes
    {
      aofBuf := aofBuf + bytes;
      fed := fed + bytes;
    }

    /** One write(2) of `data`. */
    method WriteCall(data: string)
      modifies `file, `offset
      ensures View() == Put(old(View()), data)
    {
      if data != [] {
        var p := if append then |file| else offset;
        file := Overwrite(file, p, data);
        offset := p + |data|;
      }
    }

    /** One round of aofWrite's loop, for a call that wrote at most `n` bytes. */
    method WriteRound(written: nat, n: nat, ghost l: Log) returns (k: nat)
      requires written <= |aofBuf| && l.buf == aofBuf && View() == Written(l, written)
      modifies `file, `offset
      ensures k == if n <= |aofBuf| - written then n else |aofBuf| - written
      ensures View() == Written(l, written + k)
    {
      hide Put, Written;
      k := if n <= |aofBuf| - written then n else |aofBuf| - written;
      WriteMore(l, written, k);
      WriteCall(aofBuf[written..written + k]);
    }

    /** aofWrite: -1 for an error before anything was written. */
    method AofWrite(calls: seq<Call>) returns (total: int)
      modifies `file, `offset
      ensures var n := Accepted(|aofBuf|, calls);
              && total == (if n == 0 && aofBuf != [] then -1 else n)
              && View() == Written(old(View()), n)
    {
      hide Put, Written, Accepted;
      ghost var l := View();
      var i, written, len := 0, 0, |aofBuf|;
      NothingWritten(l);
      ghost var n := Accepted(len, calls);
      while written < len && i < |calls|
        invariant 0 <= i <= |calls| && 0 <= written <= len
        invariant written + Accepted(len - written, calls, i) == n
        invariant aofBuf == l.buf && View() == Written(l, written)
      {
        AcceptedStep(len - written, calls, i);
        match calls[i] {
          case Interrupted =>
          case Failed =>
            return if written > 0 then written else -1;
          case Wrote(m) =>
            var k := WriteRound(written, m, l);
            written := written + k;
        }
        i := i + 1;
      }
      AcceptedEnd(len - written, calls, i);
      if written < len {
        var k := WriteRound(written, len - written, l);
        written := written + k;
      }
      return written;
    }

    /** The buffer is not empty and the write is not postponed: with fsync every second, a write
        waits up to two seconds for a running fsync. */
    predicate Attempts(env: Env)
      reads `aofBuf, `postponedStart
    {
      && aofBuf != []
      && !(env.policy.EverySec? && !env.force && env.syncInProgress
           && (postponedStart == 0 || env.now - postponedStart < 2000))
    }

    /** Bytes that are written and not synced, or to be written. */
    predicate Unsynced()
      reads `aofBuf, `lastIncrFsyncOffset, `lastIncrSize
    {
      aofBuf != [] || lastIncrFsyncOffset != lastIncrSize
    }

    /** The flush comes to the fsync at its end: everything is written, or there was nothing to
        write but an older write is not synced. */
    predicate ReachesFsync(env: Env)
      reads `aofBuf, `postponedStart, `lastIncrFsyncOffset, `lastIncrSize, `lastFsync
    {
      if aofBuf != [] then Attempts(env) && Accepted(|aofBuf|, env.calls) == |aofBuf|
      else
        && lastIncrFsyncOffset != lastIncrSize
        && (env.policy.Always? || (env.policy.EverySec? && env.now - lastFsync >= 1000 && !env.syncInProgress))
    }

    /** flushAppendOnlyFile; `exited` is exit(1), which only the `always` policy does: when the
        write is not completed, and when the fsync fails. */
    method Flush(env: Env) returns (exited: bool)
      requires lastIncrFsyncOffset <= lastIncrSize
      modifies `file, `offset, `aofBuf, `lastIncrSize, `currentSize, `lastIncrFsyncOffset, `lastWriteOk,
               `postponedStart, `lastFsync
      ensures exited <==>
                && env.policy.Always?
                && (|| (old(aofBuf) != [] && Accepted(|old(aofBuf)|, env.calls) < |old(aofBuf)|)
                    || (old(Unsynced()) && !env.fsyncOk && !(env.noFsyncOnRewrite && env.childActive)))
      ensures var n := Accepted(|old(aofBuf)|, env.calls);
              View() == if !old(Attempts(env)) then old(View())
                        else if exited && n < |old(aofBuf)| then Abandoned(old(View()), n, env.truncateOk)
                        else Flushed(old(View()), n, env.truncateOk)
      ensures old(aofBuf) != [] && (env.force || !env.policy.EverySec? || !env.syncInProgress) ==> old(Attempts(env))
      ensures old(aofBuf) != [] && old(postponedStart) != 0 && env.now - old(postponedStart) >= 2000 ==>
              old(Attempts(env))
      ensures lastIncrFsyncOffset <= lastIncrSize
      ensures currentSize - old(currentSize) == lastIncrSize - old(lastIncrSize)
      ensures postponedStart == if old(Attempts(env)) then 0
                                else if old(aofBuf) != [] && old(postponedStart) == 0 then env.now
                                else old(postponedStart)
      ensures !exited && old(Attempts(env)) ==> (lastWriteOk <==> Accepted(|old(aofBuf)|, env.calls) == |old(aofBuf)|)
      ensures !old(Attempts(env)) ==> lastWriteOk == old(lastWriteOk)
      ensures !exited && env.policy.Always? && !(env.noFsyncOnRewrite && env.childActive) ==>
              lastIncrFsyncOffset == lastIncrSize
      ensures var due := !exited && old(ReachesFsync(env)) && FsyncDue(env, old(lastFsync));
              && lastIncrFsyncOffset == (if due && !(env.policy.EverySec? && env.syncInProgress) then lastIncrSize
                                         else old(lastIncrFsyncOffset))
              && lastFsync == (if due then env.now else old(lastFsync))
      ensures !exited && old(Aligned(View()) && Conserved(View(), fed)) ==> Conserved(View(), fed)
    {
      hide Accepted, Flushed, Conserved, Aligned;
      var syncInProgress := false;
      if aofBuf == [] {
        if lastIncrFsyncOffset != lastIncrSize {
          if env.policy.EverySec? && env.now - lastFsync >= 1000 && !env.syncInProgress {
            exited := TryFsync(env, false);
            return;
          }
          if env.policy.Always? {
            exited := TryFsync(env, false);
            return;
          }
        }
        return false;
      }
      if env.policy.EverySec? {
        syncInProgress := env.syncInProgress;
      }
      if env.policy.EverySec? && !env.force && syncInProgress {
        if postponedStart == 0 {
          postponedStart := env.now;
          return false;
        } else if env.now - postponedStart < 2000 {
          return false;
        }
      }
      ghost var l := View();
      exited := WriteOut(env, syncInProgress);
      if !exited && Aligned(l) && Conserved(l, fed) {
        FlushConserves(l, Accepted(|l.buf|, env.calls), env.truncateOk, fed);
      }
    }

    /** The rest of the flush, once the write is due. */
    method WriteOut(env: Env, syncInProgress: bool) returns (exited: bool)
      requires lastIncrFsyncOffset <= lastIncrSize && aofBuf != []
      modifies `file, `offset, `aofBuf, `lastIncrSize, `currentSize, `lastIncrFsyncOffset, `lastWriteOk,
               `postponedStart, `lastFsync
      ensures exited <==>
                && env.policy.Always?
                && (|| Accepted(|old(aofBuf)|, env.calls) < |old(aofBuf)|
                    || (!env.fsyncOk && !(env.noFsyncOnRewrite && env.childActive)))
      ensures var n := Accepted(|old(aofBuf)|, env.calls);
              View() == if exited && n < |old(aofBuf)| then Abandoned(old(View()), n, env.truncateOk)
                        else Flushed(old(View()), n, env.truncateOk)
      ensures lastIncrFsyncOffset <= lastIncrSize && postponedStart == 0
      ensures currentSize - old(currentSize) == lastIncrSize - old(lastIncrSize)
      ensures !exited ==> (lastWriteOk <==> Accepted(|old(aofBuf)|, env.calls) == |old(aofBuf)|)
      ensures var n := Accepted(|old(aofBuf)|, env.calls);
              var due := !exited && n == |old(aofBuf)| && FsyncDue(env, old(lastFsync));
              && lastIncrFsyncOffset == (if due && !(env.policy.EverySec? && syncInProgress) then lastIncrSize
                                         else old(lastIncrFsyncOffset))
              && lastFsync == (if due then env.now else old(lastFsync))
    {
      ghost var l := View();
      hide Accepted, Written, Truncated, Flushed;
      var nwritten := AofWrite(env.calls);
      postponedStart := 0;
      if nwritten != |aofBuf| {
        exited := Incomplete(env, nwritten, l);
        return;
      }
      FlushedAll(l, env.truncateOk);
      lastWriteOk := true;
      currentSize := currentSize + nwritten;
      lastIncrSize := lastIncrSize + nwritten;
      aofBuf := [];
      exited := TryFsync(env, syncInProgress);
    }

    /** A write that did not complete: roll it back, or keep the part that was written. */
    method Incomplete(env: Env, written: int, ghost l: Log) returns (exited: bool)
      requires written == -1 || 0 < written < |aofBuf|
      requires l.size == lastIncrSize && l.buf == aofBuf && l.append == append && l.buf != []
      requires View() == Written(l, if written == -1 then 0 else written)
      modifies `file, `aofBuf, `lastIncrSize, `currentSize, `lastWriteOk
      ensures exited <==> env.policy.Always?
      ensures var n := if written == -1 then 0 else written;
              View() == if exited then Abandoned(l, n, env.truncateOk) else Flushed(l, n, env.truncateOk)
      ensures (lastWriteOk == if exited then old(lastWriteOk) else false) && old(lastIncrSize) <= lastIncrSize
      ensures currentSize - old(currentSize) == lastIncrSize - old(lastIncrSize)
    {
      var nwritten := written;
      if nwritten != -1 {
        if env.truncateOk {
          file := Truncated(file, lastIncrSize);
          nwritten := -1;
        }
      }
      if env.policy.Always? {
        return true;
      }
      lastWriteOk := false;
      assert l.buf[0..] == l.buf;
      if nwritten > 0 {
        currentSize := currentSize + nwritten;
        lastIncrSize := lastIncrSize + nwritten;
        aofBuf := aofBuf[nwritten..];
      }
      return false;
    }

    /** The fsync at the end of a flush. */
    method TryFsync(env: Env, syncInProgress: bool) returns (exited: bool)
      requires lastIncrFsyncOffset <= lastIncrSize
      modifies `lastIncrFsyncOffset, `lastFsync
      ensures exited <==> env.policy.Always? && !env.fsyncOk && !(env.noFsyncOnRewrite && env.childActive)
      ensures lastIncrFsyncOffset
              == if !exited && FsyncDue(env, old(lastFsync)) && !(env.policy.EverySec? && syncInProgress)
                 then lastIncrSize else old(lastIncrFsyncOffset)
      ensures lastFsync == if !exited && FsyncDue(env, old(lastFsync)) then env.now else old(lastFsync)
    {
      exited := false;
      if env.noFsyncOnRewrite && env.childActive {
        return;
      }
      if env.policy.Always? {
        if !env.fsyncOk {
          return true;
        }
        lastIncrFsyncOffset := lastIncrSize;
        lastFsync := env.now;
      } else if env.policy.EverySec? && env.now - lastFsync >= 1000 {
        if !syncInProgress {
          lastIncrFsyncOffset := lastIncrSize;
        }
        lastFsync := env.now;
      }
    }
  }

  lemma AcceptedStep(len: nat, calls: seq<Call>, i: nat)
    requires i < |calls| && len > 0
    ensures calls[i].Interrupted? ==> Accepted(len, calls, i) == Accepted(len, calls, i + 1)
    ensures calls[i].Failed? ==> Accepted(len, calls, i) == 0
    ensures calls[i].Wrote? ==> var k := if calls[i].n <= len then calls[i].n else len;
                                Accepted(len, calls, i) == k + Accepted(len - k, calls, i + 1)
  {
  }

  lemma AcceptedEnd(len: nat, calls: seq<Call>, i: nat)
    requires i <= |calls| && (len == 0 || i == |calls|)
    ensures Accepted(len, calls, i) == len
  {
  }

  lemma NothingWritten(l: Log)
    ensures Written(l, 0) == l
  {
  }

  lemma FlushedAll(l: Log, truncateOk: bool)
    ensures Flushed(l, |l.buf|, truncateOk) == Written(l, |l.buf|).(size := l.size + |l.buf|, buf := [])
  {
  }

  /** Consecutive writes are one write. */
  lemma WriteMore(l: Log, n: nat, k: nat)
    requires n + k <= |l.buf|
    ensures Written(l, n + k) == Put(Written(l, n), l.buf[n..n + k])
  {
    hide Overwrite;
    if n > 0 && k > 0 {
      assert l.buf[..n + k] == l.buf[..n] + l.buf[n..n + k];
      OverwriteMore(l.file, Position(l), l.buf[..n], l.buf[n..n + k]);
      if l.append {
        AppendedLength(l.file, l.buf[..n]);
      }
    } else if k > 0 {
      assert l.buf[..k] == l.buf[0..k];
    }
  }

  lemma AppendedLength(file: string, data: string)
    ensures |Overwrite(file, |file|, data)| == |file| + |data|
  {
  }

  lemma HeadOfOverwrite(file: string, p: nat, a: string)
    requires a != []
    ensures Truncated(Overwrite(file, p, a), p + |a|) == Truncated(file, p) + a
  {
    hide Truncated, Rest;
    var head := Truncated(file, p) + a;
    var all := head + Rest(file, p + |a|);
    assert all[..|head|] == head;
    TruncatedIs(all, |head|);
  }

  lemma TruncatedIs(file: string, p: nat)
    requires p <= |file|
    ensures Truncated(file, p) == file[..p]
  {
  }

  lemma RestOfOverwrite(file: string, p: nat, a: string, q: nat)
    requires a != [] && p + |a| <= q
    ensures Rest(Overwrite(file, p, a), q) == Rest(file, q)
  {
    hide Truncated;
    var head, tail := Truncated(file, p) + a, Rest(file, p + |a|);
    var all := head + tail;
    if q < |file| {
      assert all[q..] == tail[q - |head|..] == file[q..];
    }
  }

  lemma OverwriteMore(file: string, p: nat, a: string, b: string)
    requires a != [] && b != []
    ensures Overwrite(Overwrite(file, p, a), p + |a|, b) == Overwrite(file, p, a + b)
  {
    hide Truncated, Rest;
    HeadOfOverwrite(file, p, a);
    RestOfOverwrite(file, p, a, p + |a| + |b|);
    assert Truncated(file, p) + a + b == Truncated(file, p) + (a + b);
  }

  // ----- what a flush conserves -----

  /** The accounted part of the file followed by the buffer is everything fed. */
  ghost predicate Conserved(l: Log, fed: string) {
    l.size <= |l.file| && l.file[..l.size] + l.buf == fed
  }

  /** The next write goes right behind the accounted part. */
  predicate Aligned(l: Log) {
    |l.file| == l.size && (l.append || l.offset == l.size)
  }

  /** A short write was rolled back. */
  predicate RollsBack(l: Log, n: nat, truncateOk: bool) {
    0 < n < |l.buf| && truncateOk
  }

  /** From an aligned log every flush conserves the bytes, whatever fails; it stays aligned
      unless it rolled a short write back on a descriptor that is not in append mode. */
  lemma FlushConserves(l: Log, n: nat, truncateOk: bool, fed: string)
    requires n <= |l.buf| && Aligned(l) && Conserved(l, fed)
    ensures var f := Flushed(l, n, truncateOk);
            && Conserved(f, fed) && |f.file| == f.size && f.append == l.append
            && (Aligned(f) <==> l.append || !RollsBack(l, n, truncateOk))
  {
    var w := Written(l, n);
    assert l.file[..l.size] == l.file && l.buf == l.buf[..n] + l.buf[n..];
    assert w.file == l.file + l.buf[..n];
    if n == |l.buf| {
      assert l.buf[..n] == l.buf;
    } else if RollsBack(l, n, truncateOk) {
      assert w.file[..l.size] == l.file;
    } else {
      assert w.file + l.buf[n..] == l.file + (l.buf[..n] + l.buf[n..]);
    }
  }

  lemma SameMode(l: Log, n: nat, truncateOk: bool)
    requires n <= |l.buf|
    ensures Flushed(l, n, truncateOk).append == l.append
  {
  }

  /** The descriptor never falls behind the accounted part. */
  lemma FlushedOffset(l: Log, n: nat, truncateOk: bool)
    requires n <= |l.buf| && Aligned(l)
    ensures l.append || Flushed(l, n, truncateOk).offset >= Flushed(l, n, truncateOk).size
  {
  }

  /** A flush that writes nothing, or takes back what it wrote, changes the descriptor only. */
  lemma NothingStays(l: Log, n: nat, truncateOk: bool)
    requires n <= |l.buf| && !l.append && |l.file| == l.size && l.offset >= l.size
    requires n == 0 || RollsBack(l, n, truncateOk)
    ensures var f := Flushed(l, n, truncateOk); f == l.(offset := f.offset) && f.offset >= l.offset
  {
    hide Zeros;
    if n == 0 {
      NothingWritten(l);
      assert l.buf[0..] == l.buf;
    } else {
      var w := Written(l, n);
      assert w.file[..l.size] == l.file;
    }
  }

  /** Once the offset lies behind the end, the next bytes that stay in the file come after a gap
      of zeros: conserved only if nothing stays, or if it was zeros anyway. */
  lemma MisalignedFlush(l: Log, n: nat, truncateOk: bool, fed: string)
    requires n <= |l.buf| && Conserved(l, fed) && |l.file| == l.size && !l.append && l.offset > l.size
    ensures Conserved(Flushed(l, n, truncateOk), fed)
            <==> n == 0 || RollsBack(l, n, truncateOk) || l.buf[..n] == Zeros(n)
  {
    hide Put, Zeros;
    var gap, data := l.offset - l.size, l.buf[..n];
    if n == 0 {
      NothingWritten(l);
      assert l.buf[0..] == l.buf;
    } else {
      WrittenBehindGap(l, n);
      var f, w := Flushed(l, n, truncateOk), Written(l, n);
      assert l.file[..l.size] == l.file;
      if RollsBack(l, n, truncateOk) {
        assert w.file[..l.size] == l.file;
      } else {
        var rest := l.buf[n..];
        assert fed == l.file + data + rest;
        assert f.file[..f.size] == l.file + (Zeros(gap) + data)[..n];
        assert f.buf == rest;
        SameAfterGap(l.file, (Zeros(gap) + data)[..n], data, rest);
        ShiftedByZeros(data, gap);
      }
    }
  }

  lemma WrittenBehindGap(l: Log, n: nat)
    requires 0 < n <= |l.buf| && |l.file| == l.size && !l.append && l.offset > l.size
    ensures Written(l, n) == l.(file := l.file + (Zeros(l.offset - l.size) + l.buf[..n]), offset := l.offset + n)
  {
    assert l.file + (Zeros(l.offset - l.size) + l.buf[..n]) == l.file + Zeros(l.offset - l.size) + l.buf[..n] + [];
  }

  lemma SameAfterGap(a: string, x: string, y: string, tail: string)
    requires |x| == |y|
    ensures a + x + tail == a + y + tail <==> x == y
  {
    if a + x + tail == a + y + tail {
      assert x == (a + x + tail)[|a|..|a| + |x|] && y == (a + y + tail)[|a|..|a| + |y|];
    }
  }

  /** A string equals its own shift behind zeros only if it is all zeros. */
  lemma ShiftedByZeros(data: string, gap: nat)
    requires gap > 0
    ensures (Zeros(gap) + data)[..|data|] == data <==> data == Zeros(|data|)
  {
    hide Zeros;
    var shifted := (Zeros(gap) + data)[..|data|];
    if shifted == data {
      forall i: nat | i < |data|
        ensures data[i] == NUL
      {
        ZeroThrough(data, gap, i);
      }
    }
  }

  lemma {:induction false} ZeroThrough(data: string, gap: nat, i: nat)
    requires gap > 0 && i < |data| && (Zeros(gap) + data)[..|data|] == data
    ensures data[i] == NUL
    decreases i
  {
    assert data[i] == (Zeros(gap) + data)[i];
    if i >= gap {
      ZeroThrough(data, gap, i - gap);
    }
  }

  // ----- whole runs -----

  /** Between two rotations of the log: bytes are fed, and flushes get some bytes out. */
  datatype Event = Fed(bytes: string) | FlushEvent(n: nat, truncateOk: bool)

  predicate Possible(l: Log, e: Event) {
    e.FlushEvent? ==> e.n <= |l.buf|
  }

  function Next(l: Log, e: Event): Log
    requires Possible(l, e)
  {
    match e
    case Fed(bytes) => l.(buf := l.buf + bytes)
    case FlushEvent(n, truncateOk) => Flushed(l, n, truncateOk)
  }

  function FedBy(events: seq<Event>): string {
    if events == [] then [] else (if events[0].Fed? then events[0].bytes else []) + FedBy(events[1..])
  }

  predicate Run(l: Log, events: seq<Event>)
    decreases |events|
  {
    events == [] || (Possible(l, events[0]) && Run(Next(l, events[0]), events[1..]))
  }

  function End(l: Log, events: seq<Event>): Log
    requires Run(l, events)
    decreases |events|
  {
    if events == [] then l else End(Next(l, events[0]), events[1..])
  }

  /** Conserved at every point of the run. */
  ghost predicate Throughout(l: Log, events: seq<Event>, fed: string)
    requires Run(l, events)
    decreases |events|
  {
    && Conserved(l, fed)
    && (events != [] ==>
          Throughout(Next(l, events[0]), events[1..], fed + if events[0].Fed? then events[0].bytes else []))
  }

  /** The flush writes where the accounted part ends, or nothing stays, or zeros among zeros. */
  predicate Sound(l: Log, e: Event)
    requires Possible(l, e)
  {
    match e
    case Fed(_) => true
    case FlushEvent(n, truncateOk) =>
      l.append || l.offset == l.size || n == 0 || RollsBack(l, n, truncateOk) || l.buf[..n] == Zeros(n)
  }

  predicate AllSound(l: Log, events: seq<Event>)
    requires Run(l, events)
    decreases |events|
  {
    events != [] ==> Sound(l, events[0]) && AllSound(Next(l, events[0]), events[1..])
  }

  /** Nothing but zeros lies behind the accounted part, and the descriptor is not before it. */
  predicate Tidy(l: Log) {
    && l.size <= |l.file| && l.file[l.size..] == Zeros(|l.file| - l.size)
    && if l.append then |l.file| == l.size else |l.file| <= l.offset
  }

  lemma AlignedTidy(l: Log)
    requires Aligned(l)
    ensures Tidy(l)
  {
    assert l.file[l.size..] == [];
  }

  /** A write behind the accounted part, on a log that is not in append mode. */
  lemma TidyWrite(l: Log, n: nat)
    requires n <= |l.buf| && Tidy(l) && !l.append && n > 0
    ensures Written(l, n) == l.(file := l.file[..l.size] + (Zeros(l.offset - l.size) + l.buf[..n]),
                                offset := l.offset + n)
  {
    hide Zeros;
    var head := l.file[..l.size];
    assert l.file == head + Zeros(|l.file| - l.size);
    assert Truncated(l.file, l.offset) == head + Zeros(l.offset - l.size);
    assert head + Zeros(l.offset - l.size) + l.buf[..n] + [] == head + (Zeros(l.offset - l.size) + l.buf[..n]);
  }

  lemma ZerosOnly(gap: nat, data: string, n: nat)
    requires n <= gap + |data| && data == Zeros(|data|)
    ensures (Zeros(gap) + data)[n..] == Zeros(gap + |data| - n)
  {
  }

  /** From a tidy, conserved log: a flush conserves exactly when it is sound, and then leaves the
      log tidy. */
  lemma FlushExact(l: Log, n: nat, truncateOk: bool, fed: string)
    requires n <= |l.buf| && Tidy(l) && Conserved(l, fed)
    ensures var f := Flushed(l, n, truncateOk);
            && (Conserved(f, fed) <==> Sound(l, FlushEvent(n, truncateOk)))
            && (Conserved(f, fed) ==> Tidy(f))
  {
    if n == 0 {
      NothingWritten(l);
      assert l.buf[0..] == l.buf;
    } else if l.append || (l.offset == l.size && |l.file| == l.size) {
      FlushConserves(l, n, truncateOk, fed);
      FlushExactAligned(l, n, truncateOk);
    } else {
      FlushExactBehind(l, n, truncateOk, fed);
    }
  }

  lemma FlushExactAligned(l: Log, n: nat, truncateOk: bool)
    requires 0 < n <= |l.buf| && Aligned(l)
    ensures Tidy(Flushed(l, n, truncateOk))
  {
    hide Zeros;
    var f := Flushed(l, n, truncateOk);
    var w := Written(l, n);
    assert w.file == l.file + l.buf[..n];
    assert |f.file| == f.size;
    assert f.file[f.size..] == [] == Zeros(0);
  }

  lemma RolledBackTidy(l: Log, n: nat, truncateOk: bool, fed: string)
    requires n <= |l.buf| && Tidy(l) && Conserved(l, fed) && !l.append && RollsBack(l, n, truncateOk)
    ensures var f := Flushed(l, n, truncateOk); Conserved(f, fed) && Tidy(f)
  {
    hide Zeros, Written, Truncated;
    TidyWrite(l, n);
    var f, w := Flushed(l, n, truncateOk), Written(l, n);
    TruncatedIs(w.file, l.size);
    assert f.file == l.file[..l.size] && f.file[..l.size] == f.file;
    assert f.file[f.size..] == [] == Zeros(0);
  }

  /** The accounted part and what lies behind it after a write that stays. */
  lemma KeptBehind(l: Log, n: nat, truncateOk: bool)
    requires 0 < n <= |l.buf| && Tidy(l) && !l.append && !RollsBack(l, n, truncateOk)
    ensures var f := Flushed(l, n, truncateOk);
            var all := Zeros(l.offset - l.size) + l.buf[..n];
            && f.append == l.append && f.size == l.size + n <= |f.file| && |f.file| == f.offset && f.buf == l.buf[n..]
            && f.file[..f.size] == l.file[..l.size] + all[..n] && f.file[f.size..] == all[n..]
  {
    hide Zeros, Written, Truncated;
    TidyWrite(l, n);
    assert l.buf[|l.buf|..] == [];
  }

  lemma FlushExactBehind(l: Log, n: nat, truncateOk: bool, fed: string)
    requires 0 < n <= |l.buf| && Tidy(l) && Conserved(l, fed) && !l.append
    ensures var f := Flushed(l, n, truncateOk);
            && (Conserved(f, fed) <==> Sound(l, FlushEvent(n, truncateOk)))
            && (Conserved(f, fed) ==> Tidy(f))
  {
    hide Zeros, Flushed;
    if RollsBack(l, n, truncateOk) {
      RolledBackTidy(l, n, truncateOk, fed);
    } else {
      var gap, data, rest, head := l.offset - l.size, l.buf[..n], l.buf[n..], l.file[..l.size];
      var all := Zeros(gap) + data;
      KeptBehind(l, n, truncateOk);
      assert fed == head + data + rest by { assert l.buf == data + rest; }
      SameAfterGap(head, all[..n], data, rest);
      if gap == 0 {
        assert all == data && all[..n] == data && all[n..] == [] == Zeros(0);
      } else {
        ShiftedByZeros(data, gap);
        if data == Zeros(n) {
          ZerosOnly(gap, data, n);
        }
      }
    }
  }

  /** Over every run from an aligned log: the bytes are conserved at every point exactly when
      every flush is sound; in append mode every flush is. */
  lemma RunConserves(l: Log, events: seq<Event>, fed: string)
    requires Run(l, events) && Aligned(l) && Conserved(l, fed)
    ensures Throughout(l, events, fed) <==> AllSound(l, events)
    ensures Throughout(l, events, fed) ==> Conserved(End(l, events), fed + FedBy(events))
    ensures l.append ==> AllSound(l, events)
  {
    hide Conserved, Flushed, Throughout;
    AlignedTidy(l);
    TidyRun(l, events, fed);
    if l.append {
      AppendSound(l, events);
    }
  }

  lemma {:induction false} AppendSound(l: Log, events: seq<Event>)
    requires Run(l, events) && l.append
    ensures AllSound(l, events)
    decreases |events|
  {
    hide Flushed, RollsBack;
    if events != [] {
      if events[0].FlushEvent? {
        SameMode(l, events[0].n, events[0].truncateOk);
      }
      AppendSound(Next(l, events[0]), events[1..]);
    }
  }

  lemma {:induction false} TidyRun(l: Log, events: seq<Event>, fed: string)
    requires Run(l, events) && Tidy(l) && Conserved(l, fed)
    ensures Throughout(l, events, fed) <==> AllSound(l, events)
    ensures Throughout(l, events, fed) ==> Conserved(End(l, events), fed + FedBy(events))
    decreases |events|
  {
    hide Flushed, RollsBack, Conserved, Tidy, Sound;
    if events == [] {
      assert fed + [] == fed;
    } else {
      var e, m := events[0], Next(l, events[0]);
      var more := if e.Fed? then e.bytes else [];
      NextExact(l, e, fed);
      if Conserved(m, fed + more) {
        TidyRun(m, events[1..], fed + more);
        assert fed + more + FedBy(events[1..]) == fed + (more + FedBy(events[1..]));
      } else {
        assert !Throughout(m, events[1..], fed + more);
      }
    }
  }

  lemma NextExact(l: Log, e: Event, fed: string)
    requires Possible(l, e) && Tidy(l) && Conserved(l, fed)
    ensures var m := Next(l, e);
            && (Conserved(m, fed + if e.Fed? then e.bytes else []) <==> Sound(l, e))
            && (Sound(l, e) ==> Tidy(m))
  {
    hide Flushed, RollsBack;
    match e
    case Fed(bytes) =>
      assert l.file[..l.size] + (l.buf + bytes) == l.file[..l.size] + l.buf + bytes;
    case FlushEvent(n, truncateOk) =>
      assert fed + [] == fed;
      FlushExact(l, n, truncateOk, fed);
  }

  /** Conservation over every run of a newly opened log in append mode. */
  lemma AppendModeConserves(events: seq<Event>)
    requires Run(Log(true, [], 0, 0, []), events)
    ensures Conserved(End(Log(true, [], 0, 0, []), events), FedBy(events))
  {
    hide Throughout, AllSound;
    RunConserves(Log(true, [], 0, 0, []), events, []);
    assert [] + FedBy(events) == FedBy(events);
  }

  /** Without append mode one rolled-back short write is enough to lose the next bytes. */
  lemma RollBackLosesBytes()
    ensures var l := Log(false, [], 0, 0, "ab");
            var m := Flushed(l, 1, true);
            Conserved(m, "ab") && !Conserved(Flushed(m, 2, true), "ab")
  {
    var l := Log(false, [], 0, 0, "ab");
    FlushConserves(l, 1, true, "ab");
    var m := Flushed(l, 1, true);
    MisalignedFlush(m, 2, true, "ab");
    assert m.buf[..2] == "ab" && Zeros(2)[0] == NUL;
  }
}
