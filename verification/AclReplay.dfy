/** The log of access rules as a list: pruning it when a rule is added, and what replaying it
    gives. */
module AclReplay {
  import opened AclTable

  type Log = seq<Rule>

  ghost predicate AllKnown(t: Table, log: Log) {
    forall i :: 0 <= i < |log| ==> Known(t, log[i].target)
  }

  ghost predicate Decides(t: Table, r: Rule, cell: Cell) {
    Known(t, r.target) && Writes(t, r.target, cell)
  }

  /** What replaying the log from everything (or nothing) leaves in a cell: the last rule that
      decides it wins. */
  ghost predicate Replayed(t: Table, all: bool, log: Log, cell: Cell) {
    if log == [] then all && cell.Bit?
    else
      var n := |log| - 1;
      if Decides(t, log[n], cell) then Value(log[n], cell) else Replayed(t, all, log[..n], cell)
  }

  /** The rules that a new name does not make obsolete. */
  function Prune(log: Log, name: string): (r: Log) {
    if log == [] then []
    else
      var n := |log| - 1;
      if Covers(name, Name(log[n].target)) then Prune(log[..n], name) else Prune(log[..n], name) + [log[n]]
  }

  function After(log: Log, r: Rule): Log {
    Prune(log, Name(r.target)) + [r]
  }

  /** No rule makes an earlier one obsolete. */
  ghost predicate Pruned(log: Log) {
    forall i, j :: 0 <= i < j < |log| ==> !Covers(Name(log[j].target), Name(log[i].target))
  }

  lemma {:induction false} PruneContents(log: Log, name: string)
    ensures forall r :: r in Prune(log, name) <==> r in log && !Covers(name, Name(r.target))
    decreases |log|
  {
    hide Covers, Name;
    if log != [] {
      PruneContents(log[..|log| - 1], name);
      assert log == log[..|log| - 1] + [log[|log| - 1]];
    }
  }

  lemma ReplayedLast(t: Table, all: bool, log: Log, r: Rule, cell: Cell)
    ensures Replayed(t, all, log + [r], cell)
            == if Decides(t, r, cell) then Value(r, cell) else Replayed(t, all, log, cell)
  {
    assert (log + [r])[..|log|] == log;
  }

  /** What is pruned had no say in the cells that the new rule leaves alone. */
  lemma {:induction false} PruneReplays(t: Table, all: bool, log: Log, r: Rule, cell: Cell)
    requires WellFormed(t) && AllKnown(t, log) && Known(t, r.target) && !Writes(t, r.target, cell)
    ensures Replayed(t, all, Prune(log, Name(r.target)), cell) == Replayed(t, all, log, cell)
    decreases |log|
  {
    hide WellFormed, Covers, Name, Known, Writes;
    if log != [] {
      var n := |log| - 1;
      PruneReplays(t, all, log[..n], r, cell);
      if Covers(Name(r.target), Name(log[n].target)) {
        NoSay(t, r, log[n], cell);
      } else {
        ReplayedLast(t, all, Prune(log[..n], Name(r.target)), log[n], cell);
      }
    }
  }

  lemma NoSay(t: Table, later: Rule, earlier: Rule, cell: Cell)
    requires WellFormed(t) && Known(t, later.target) && Known(t, earlier.target) && !Writes(t, later.target, cell)
    requires Covers(Name(later.target), Name(earlier.target))
    ensures !Decides(t, earlier, cell)
  {
    hide WellFormed, Covers, Name, Known, Writes;
    if Writes(t, earlier.target, cell) {
      CoversDecides(t, later.target, earlier.target, cell);
    }
  }

  /** Adding a rule to the log adds its decisions to the replay. */
  lemma AfterReplays(t: Table, all: bool, log: Log, r: Rule, cell: Cell)
    requires WellFormed(t) && AllKnown(t, log) && Known(t, r.target)
    ensures Replayed(t, all, After(log, r), cell)
            == if Writes(t, r.target, cell) then Value(r, cell) else Replayed(t, all, log, cell)
  {
    hide WellFormed, Covers, Name, Known, Writes, Replayed, Prune;
    ReplayedLast(t, all, Prune(log, Name(r.target)), r, cell);
    if !Writes(t, r.target, cell) {
      PruneReplays(t, all, log, r, cell);
    }
  }

  lemma {:induction false} PrunePruned(log: Log, name: string)
    requires Pruned(log)
    ensures Pruned(Prune(log, name))
    decreases |log|
  {
    hide Covers, Name;
    if log != [] {
      var n := |log| - 1;
      var p := Prune(log[..n], name);
      PrunePruned(log[..n], name);
      PruneContents(log[..n], name);
      forall i | 0 <= i < |p|
        ensures !Covers(Name(log[n].target), Name(p[i].target))
      {
        assert p[i] in p;
        var k :| 0 <= k < n && log[..n][k] == p[i];
        assert log[k] == p[i];
      }
    }
  }

  lemma AfterPruned(log: Log, r: Rule)
    requires Pruned(log)
    ensures Pruned(After(log, r))
  {
    hide Covers, Name, Prune;
    var p := Prune(log, Name(r.target));
    PrunePruned(log, Name(r.target));
    PruneContents(log, Name(r.target));
    forall i | 0 <= i < |p|
      ensures !Covers(Name(r.target), Name(p[i].target))
    {
      assert p[i] in p;
    }
  }

  lemma AfterKnown(t: Table, log: Log, r: Rule)
    requires AllKnown(t, log) && Known(t, r.target)
    ensures AllKnown(t, After(log, r))
  {
    hide Covers, Name, Prune, Known;
    var p := Prune(log, Name(r.target));
    PruneContents(log, Name(r.target));
    forall i | 0 <= i < |p|
      ensures Known(t, p[i].target)
    {
      assert p[i] in p;
    }
  }

  /** The log that adding the rules of a log one by one builds. */
  function Rebuilt(log: Log): Log {
    if log == [] then [] else After(Rebuilt(log[..|log| - 1]), log[|log| - 1])
  }

  lemma {:induction false} PruneNothing(log: Log, name: string)
    requires forall i :: 0 <= i < |log| ==> !Covers(name, Name(log[i].target))
    ensures Prune(log, name) == log
    decreases |log|
  {
    hide Covers, Name;
    if log != [] {
      PruneNothing(log[..|log| - 1], name);
      assert log == log[..|log| - 1] + [log[|log| - 1]];
    }
  }

  /** A pruned log is rebuilt as it is. */
  lemma {:induction false} RebuiltSame(log: Log)
    requires Pruned(log)
    ensures Rebuilt(log) == log
    decreases |log|
  {
    hide Covers, Name, Prune;
    if log != [] {
      var n := |log| - 1;
      RebuiltSame(log[..n]);
      PruneNothing(log[..n], Name(log[n].target));
      assert log == log[..n] + [log[n]];
    }
  }
}
