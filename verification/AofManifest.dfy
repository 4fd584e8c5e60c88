/** aof.c: the manifest, the list of files that make up the append-only log. */
module AofManifest {
  import opened Options

  /** The names the server gives to files: `<prefix>.<seq>.base.rdb`, `<prefix>.<seq>.incr.aof`
      and the two temporary names. */
  datatype FileName = BaseFile(n: nat) | IncrFile(n: nat) | TempBase | TempIncr

  /** The BASE file, the INCR files in order, the HISTORY files, and the last sequence
      numbers handed out. */
  datatype Manifest = Manifest(base: Option<nat>, incr: seq<nat>, history: seq<FileName>, baseSeq: nat, incrSeq: nat)

  const EMPTY := Manifest(None, [], [], 0, 0)

  function IncrFiles(seqs: seq<nat>): (files: seq<FileName>)
    ensures |files| == |seqs| && forall i :: 0 <= i < |seqs| ==> files[i] == IncrFile(seqs[i])
  {
    seq(|seqs|, i requires 0 <= i < |seqs| => IncrFile(seqs[i]))
  }

  /** The BASE file as a list of at most one name. */
  function BaseFiles(m: Manifest): seq<FileName> {
    if m.base.Some? then [BaseFile(m.base.value)] else []
  }

  /** The files a restart replays, in order. */
  function Live(m: Manifest): seq<FileName> {
    BaseFiles(m) + IncrFiles(m.incr)
  }

  /** getNewBaseFileNameAndMarkPreAsHistory: the old BASE goes to the head of the history. */
  function NewBase(m: Manifest): Manifest {
    m.(base := Some(m.baseSeq + 1), baseSeq := m.baseSeq + 1, history := BaseFiles(m) + m.history)
  }

  /** getNewIncrAofName: the next INCR file goes to the tail. */
  function NewIncr(m: Manifest): Manifest {
    m.(incr := m.incr + [m.incrSeq + 1], incrSeq := m.incrSeq + 1)
  }

  /** How many INCR files the current writer keeps: the last one, if the log is open. */
  function Kept(m: Manifest, logOpen: bool): (k: nat)
    ensures k <= |m.incr|
  {
    if logOpen && m.incr != [] then 1 else 0
  }

  /** markRewrittenIncrAofAsHistory */
  function MarkRewritten(m: Manifest, logOpen: bool): Manifest {
    var cut := |m.incr| - Kept(m, logOpen);
    m.(incr := m.incr[cut..], history := IncrFiles(m.incr[..cut]) + m.history)
  }

  /** What loading the manifest from disk rebuilds: the sequence numbers come from the BASE
      and INCR lines alone. */
  function Reload(m: Manifest): Manifest {
    m.(baseSeq := if m.base.Some? then m.base.value else 0,
       incrSeq := if m.incr != [] then m.incr[|m.incr| - 1] else 0)
  }

  /** INCR sequence numbers strictly increase up to the current one, the BASE is the current
      one, and no HISTORY file is live. */
  ghost predicate Ordered(m: Manifest) {
    && (forall i, j :: 0 <= i < j < |m.incr| ==> m.incr[i] < m.incr[j])
    && (forall i :: 0 <= i < |m.incr| ==> 1 <= m.incr[i])
    && (m.incr != [] ==> m.incr[|m.incr| - 1] == m.incrSeq)
    && (m.base.Some? ==> 1 <= m.base.value == m.baseSeq)
    && (m.base.None? ==> m.incr == [] && m.history == [])
    && (forall f :: f in m.history ==> Retired(m, f))
  }

  ghost predicate Retired(m: Manifest, f: FileName) {
    match f
    case BaseFile(n) => 1 <= n < m.baseSeq
    case IncrFile(n) => 1 <= n && n !in m.incr
    case _ => false
  }

  /** No HISTORY file will be named again. */
  ghost predicate Remembers(m: Manifest) {
    forall f :: f in m.history && f.IncrFile? ==> f.n <= m.incrSeq
  }

  ghost predicate WellFormed(m: Manifest) {
    Ordered(m) && Remembers(m)
  }

  // ----- no file is lost or listed twice when it moves to the history -----

  function AllFiles(m: Manifest): multiset<FileName> {
    multiset(BaseFiles(m)) + multiset(IncrFiles(m.incr)) + multiset(m.history)
  }

  lemma MoveKeepsAll(base: seq<FileName>, gone: seq<FileName>, kept: seq<FileName>, history: seq<FileName>)
    ensures multiset(base) + multiset(kept) + multiset(gone + history)
            == multiset(base) + multiset(gone + kept) + multiset(history)
  {
  }

  lemma MarkRewrittenConserves(m: Manifest, logOpen: bool)
    ensures AllFiles(MarkRewritten(m, logOpen)) == AllFiles(m)
  {
    hide IncrFiles, BaseFiles, Kept;
    var cut := |m.incr| - Kept(m, logOpen);
    var gone, kept := IncrFiles(m.incr[..cut]), IncrFiles(m.incr[cut..]);
    assert IncrFiles(m.incr) == gone + kept;
    SameBase(m, MarkRewritten(m, logOpen));
    MoveKeepsAll(BaseFiles(m), gone, kept, m.history);
  }

  lemma SameBase(a: Manifest, b: Manifest)
    requires a.base == b.base
    ensures BaseFiles(a) == BaseFiles(b)
  {
  }

  lemma NewBaseConserves(m: Manifest)
    ensures AllFiles(NewBase(m)) == AllFiles(m) + multiset{BaseFile(m.baseSeq + 1)}
  {
  }

  lemma NewIncrConserves(m: Manifest)
    ensures AllFiles(NewIncr(m)) == AllFiles(m) + multiset{IncrFile(m.incrSeq + 1)}
  {
    hide IncrFiles, BaseFiles;
    assert IncrFiles(m.incr + [m.incrSeq + 1]) == IncrFiles(m.incr) + [IncrFile(m.incrSeq + 1)];
    SameBase(m, NewIncr(m));
  }

  // ----- the manifest as the server holds it -----

  datatype Kind = Base | Incr | Hist

  /** aofInfo; an offset of -1 is unset. */
  datatype Info = Info(file: FileName, kind: Kind, start: int, end: int)

  function FilesOf(infos: seq<Info>): (files: seq<FileName>)
    ensures |files| == |infos| && forall i :: 0 <= i < |infos| ==> files[i] == infos[i].file
  {
    if infos == [] then [] else [infos[0].file] + FilesOf(infos[1..])
  }

  function SeqsOf(infos: seq<Info>): (seqs: seq<nat>)
    requires forall i :: 0 <= i < |infos| ==> infos[i].file.IncrFile?
    ensures |seqs| == |infos| && forall i :: 0 <= i < |infos| ==> seqs[i] == infos[i].file.n
  {
    if infos == [] then [] else [infos[0].file.n] + SeqsOf(infos[1..])
  }

  /** Retyping an entry keeps its name and offsets. */
  function AsHistory(infos: seq<Info>): (r: seq<Info>)
    ensures |r| == |infos| && forall i :: 0 <= i < |infos| ==> r[i] == infos[i].(kind := Hist)
  {
    if infos == [] then [] else [infos[0].(kind := Hist)] + AsHistory(infos[1..])
  }

  /** One turn of the walk in markRewrittenIncrAofAsHistory. */
  lemma MoveOne(all: seq<Info>, next: nat, cut: nat, history: seq<Info>)
    requires 0 < next <= cut <= |all|
    ensures var incr := all[..next] + all[cut..];
            incr[next - 1] == all[next - 1] && incr[..next - 1] + incr[next..] == all[..next - 1] + all[cut..]
    ensures [all[next - 1].(kind := Hist)] + (AsHistory(all[next..cut]) + history)
            == AsHistory(all[next - 1..cut]) + history
  {
    assert all[next - 1..cut] == [all[next - 1]] + all[next..cut];
    assert AsHistory(all[next - 1..cut]) == [all[next - 1].(kind := Hist)] + AsHistory(all[next..cut]);
  }

  class ServerManifest {
    var base: Option<Info>
    var incr: seq<Info>
    var history: seq<Info>
    var currBaseSeq: nat
    var currIncrSeq: nat
    var dirty: bool

    /** Every entry sits in the list of its type, under a name of its type. */
    predicate Typed()
      reads this
    {
      && (base.Some? ==> base.value.kind == Base && base.value.file.BaseFile?)
      && (forall i :: 0 <= i < |incr| ==> incr[i].kind == Incr && incr[i].file.IncrFile?)
      && (forall i :: 0 <= i < |history| ==> history[i].kind == Hist)
    }

    function View(): Manifest
      requires Typed()
      reads this
    {
      Manifest(if base.Some? then Some(base.value.file.n) else None,
               SeqsOf(incr), FilesOf(history), currBaseSeq, currIncrSeq)
    }

    constructor ()
      ensures Typed() && View() == EMPTY && !dirty
    {
      base, incr, history, currBaseSeq, currIncrSeq, dirty := None, [], [], 0, 0, false;
    }

    method GetNewBaseFileNameAndMarkPreAsHistory() returns (name: FileName)
      requires Typed()
      modifies this
      ensures Typed() && View() == NewBase(old(View())) && dirty
      ensures base == Some(Info(name, Base, -1, -1)) && incr == old(incr)
      ensures history == (if old(base).Some? then [old(base).value.(kind := Hist)] else []) + old(history)
    {
      hide FilesOf, SeqsOf;
      if base.Some? {
        history := [base.value.(kind := Hist)] + history;
      }
      currBaseSeq := currBaseSeq + 1;
      name := BaseFile(currBaseSeq);
      base := Some(Info(name, Base, -1, -1));
      dirty := true;
      assert FilesOf(history) == BaseFiles(old(View())) + FilesOf(old(history));
    }

    method GetNewIncrAofName(startOffset: int) returns (name: FileName)
      requires Typed()
      modifies this
      ensures Typed() && View() == NewIncr(old(View())) && dirty
      ensures incr == old(incr) + [Info(name, Incr, startOffset, -1)]
      ensures base == old(base) && history == old(history)
    {
      hide IncrFiles, FilesOf, SeqsOf, AsHistory;
      currIncrSeq := currIncrSeq + 1;
      name := IncrFile(currIncrSeq);
      incr := incr + [Info(name, Incr, startOffset, -1)];
      dirty := true;
      assert SeqsOf(incr) == SeqsOf(old(incr)) + [currIncrSeq];
    }

    /** getLastIncrAofName: the name that the log is opened under. */
    method GetLastIncrAofName(startOffset: int) returns (name: FileName)
      requires Typed()
      modifies this
      ensures Typed() && incr != [] && name == incr[|incr| - 1].file
      ensures View() == if old(incr) == [] then NewIncr(old(View())) else old(View())
    {
      if incr == [] {
        name := GetNewIncrAofName(startOffset);
      } else {
        name := incr[|incr| - 1].file;
      }
    }

    /** The walk of markRewrittenIncrAofAsHistory: from the entry before `cut` towards the head,
        each entry is retyped and moved to the head of the history. */
    method MoveToHistory(cut: nat)
      requires cut <= |incr|
      modifies `incr, `history
      ensures incr == old(incr)[cut..] && history == AsHistory(old(incr)[..cut]) + old(history)
    {
      hide AsHistory;
      var next := cut;
      ghost var all, his := incr, history;
      assert all[..cut] + all[cut..] == all && all[cut..cut] == [] && AsHistory([]) + his == his;
      while next > 0
        invariant 0 <= next <= cut <= |all|
        invariant incr == all[..next] + all[cut..]
        invariant history == AsHistory(all[next..cut]) + his
      {
        MoveOne(all, next, cut, his);
        next := next - 1;
        var ai := incr[next];
        history := [ai.(kind := Hist)] + history;
        incr := incr[..next] + incr[next + 1..];
      }
      assert all[..0] + all[cut..] == all[cut..] && all[0..cut] == all[..cut];
    }

    /** markRewrittenIncrAofAsHistory */
    method MarkRewrittenIncrAofAsHistory(logOpen: bool)
      requires Typed()
      modifies this
      ensures Typed() && View() == MarkRewritten(old(View()), logOpen)
      ensures base == old(base)
      ensures var cut := |old(incr)| - Kept(old(View()), logOpen);
              incr == old(incr)[cut..] && history == AsHistory(old(incr)[..cut]) + old(history)
      ensures dirty == (old(dirty) || old(incr) != [])
    {
      hide IncrFiles, FilesOf, SeqsOf, AsHistory;
      ghost var before := View();
      if incr == [] {
        assert AsHistory([]) + history == history && IncrFiles([]) + before.history == before.history;
        return;
      }
      var cut := if logOpen then |incr| - 1 else |incr|;
      MoveToHistory(cut);
      dirty := true;
      assert SeqsOf(incr) == before.incr[cut..];
      assert FilesOf(history) == IncrFiles(before.incr[..cut]) + before.history;
    }
  }
}
