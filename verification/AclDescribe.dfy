/** acl.c: describing a selector and recomputing its permissions from its rules. */
module AclDescribe {
  import opened Options
  import opened Letters
  import opened Sds
  import opened AclTable
  import opened AclReplay
  import opened AclRules
  import opened AclSelector
  import opened Acl
  import opened AclCommands
  import opened AclWords

  // ----- a recorded rule is read back as itself -----

  lemma BarAt(b: string, s: string)
    requires NoBar(b) && NoBar(s)
    ensures var n := b + "|" + s;
            && !NoBar(n) && Bar(n) == |b| && LastBar(n) == |b| && n[..|b|] == b && n[|b| + 1..] == s
  {
    hide Bar, LastBar;
    var n := b + "|" + s;
    assert n[|b|] == '|';
    FirstBar(b, s);
    TwoWords(b, s);
    SecondBar(b, s, LastBar(n));
  }

  lemma BarNowhere(b: string)
    requires NoBar(b)
    ensures Bar(b) == |b|
  {
    hide Bar;
  }

  lemma LookupBase(t: Table, b: string)
    requires WellFormed(t) && b in t.commands
    ensures Lookup(t, b) == Some(Command(b)) && NoBar(b) && b != [] && b[0] != '@'
  {
    hide Bar, IsPlain;
    assert GoodName(b);
    BarNowhere(b);
  }

  lemma LookupSub(t: Table, b: string, s: string)
    requires WellFormed(t) && Known(t, Subcommand(b, s))
    ensures Lookup(t, b + "|" + s) == Some(Subcommand(b, s)) && NoBar(s) && s != [] && t.commands[b].container
  {
    hide Bar, LastBar, IsPlain;
    assert GoodName(b) && GoodBase(t.commands[b]) && GoodName(s);
    BarAt(b, s);
  }

  lemma ParseText(t: Table, r: Rule)
    requires WellFormed(t) && Known(t, r.target) && Canonical(r)
    ensures IsRule(RuleText(r)) && Parse(t, RuleText(r)) == Ok(r) && Canon(r) == r
  {
    hide Lookup, LastBar, IsPlain, NoBar, Lower, GoodName, WellFormed;
    var op := RuleText(r);
    assert op[1..] == Name(r.target);
    match r.target {
      case Command(b) => LookupBase(t, b);
      case Subcommand(b, s) =>
        LookupBase(t, b);
        LookupSub(t, b, s);
        BarAt(b, s);
      case Category(c) =>
        CategoryText(t, c);
      case FirstArg(b, a) =>
        LookupBase(t, b);
        BarAt(b, a);
    }
  }

  lemma CategoryText(t: Table, c: string)
    requires WellFormed(t) && c in t.categories
    ensures Name(Category(c)) != [] && Name(Category(c))[0] == '@' && Name(Category(c))[1..] == c && Lower(c) == c
            && c != "all"
  {
    hide IsPlain;
    assert GoodName(c);
  }

  /** And it is none of the operations that start over. */
  lemma TextIsNotAll(t: Table, r: Rule)
    requires WellFormed(t) && Known(t, r.target) && Canonical(r)
    ensures !IsAll(RuleText(r)) && !IsNone(RuleText(r))
  {
    hide IsPlain, NoBar, GoodName, WellFormed, Name;
    var op := RuleText(r);
    var sign := if r.allow then "+" else "-";
    assert op == sign + Name(r.target);
    assert Lower(op)[0] == op[0];
    NamePlain(t, r);
    LowerConcat(sign, Name(r.target));
    assert Lower(op)[1..] == Name(r.target);
    assert "+@all"[1..] == "@all" && "-@all"[1..] == "@all";
    NotAll(t, r.target);
  }

  lemma NotAll(t: Table, x: Target)
    requires WellFormed(t) && Known(t, x)
    ensures Name(x) != "@all"
  {
    hide IsPlain, NoBar, GoodName, WellFormed, Name;
    NameParts(t, x);
    if x.Category? {
      CategoryText(t, x.category);
      assert "@all"[1..] == "all";
    } else if !x.Command? {
      assert Name(x)[0] == x.base[0];
    }
  }

  /** A recorded rule means itself. */
  lemma TextMeans(t: Table, r: Rule, pattern: Option<Errno>)
    requires WellFormed(t) && Known(t, r.target) && Canonical(r)
    ensures Meaning(t, RuleText(r), pattern) == Change(r) && Canon(r) == r && ReadableOp(t, RuleText(r))
  {
    hide Parse, WellFormed, Known, Name, IsAll, IsNone;
    ParseText(t, r);
    TextIsNotAll(t, r);
    SignedIsNotOther(RuleText(r));
    assert Canonical(r);
  }

  lemma SignedIsNotOther(op: string)
    requires IsRule(op)
    ensures !IsOther(op) && !IsPattern(op)
  {
    assert Lower(op)[0] == op[0];
    assert "allkeys"[0] == 'a' && "~*"[0] == '~' && "resetkeys"[0] == 'r' && "allchannels"[0] == 'a' && "&*"[0] == '&'
        && "resetchannels"[0] == 'r';
  }

  // ----- what a list of operations leaves in a cell -----

  ghost predicate CellAfter(t: Table, held: bool, cell: Cell, e: Effect) {
    if e.AllowAll? then cell.Bit?
    else if e.AllowNone? then false
    else if e.Change? && Decides(t, e.rule, cell) then Value(e.rule, cell)
    else held
  }

  ghost predicate Held(t: Table, start: bool, cell: Cell, ops: seq<string>)
    decreases |ops|
  {
    if ops == [] then start
    else CellAfter(t, Held(t, start, cell, ops[..|ops| - 1]), cell, Meaning(t, ops[|ops| - 1], None))
  }

  ghost predicate AllAccepted(t: Table, ops: seq<string>, pattern: Option<Errno>) {
    forall i :: 0 <= i < |ops| ==> !Meaning(t, ops[i], pattern).Refused?
  }

  lemma HeldNext(t: Table, start: bool, cell: Cell, ops: seq<string>, i: nat, pattern: Option<Errno>)
    requires i < |ops|
    ensures Held(t, start, cell, ops[..i + 1])
            == CellAfter(t, Held(t, start, cell, ops[..i]), cell, Meaning(t, ops[i], pattern))
  {
    hide Parse, IsOther, IsAll, IsNone;
    assert ops[..i + 1][..i] == ops[..i];
  }

  lemma {:induction false} HeldConcat(t: Table, start: bool, cell: Cell, a: seq<string>, b: seq<string>)
    ensures Held(t, start, cell, a + b) == Held(t, Held(t, start, cell, a), cell, b)
    decreases |b|
  {
    hide Meaning, CellAfter;
    if b == [] {
      assert a + b == a;
    } else {
      var n := |b| - 1;
      assert (a + b)[..|a + b| - 1] == a + b[..n] && (a + b)[|a + b| - 1] == b[n];
      HeldConcat(t, start, cell, a, b[..n]);
    }
  }

  /** One operation, cell by cell. */
  lemma EffectOnCells(t: Table, p: Perms, q: Perms, e: Effect, cell: Cell)
    requires cell.id < BITS && Effected(t, p, q, e)
    ensures Holds(q, cell) == CellAfter(t, Holds(p, cell), cell, e)
  {
    hide Writes, Value, ArgsOk, FlagOk, Known;
  }

  /** The loop that replays the rules; `ok` is that every one was accepted. */
  method ReplayRules(s: Selector, t: Table, argv: seq<string>, pattern: Option<Errno>, ghost log: Log)
      returns (ok: bool)
    requires Formed(t, s)
    modifies s
    ensures Formed(t, s) && (ok <==> AllAccepted(t, argv, pattern))
    ensures forall cell: Cell :: cell.id < BITS ==>
            Holds(s.View(), cell) == Held(t, old(Holds(s.View(), cell)), cell, argv)
    ensures old(Good(t, s)) && old(s.log) == [] && LogOk(t, log) && argv == Tokens(log) ==>
            ok && Good(t, s) && s.log == log
  {
    hide WellFormed, LogOk, Text, ArgsOk, FlagOk, After, Agree, Holds, Tokens, Meaning, Applied, Canonical, RuleText,
      RulesAfter, Rebuilt, ReadableOp, Held, CellAfter;
    ok := true;
    ghost var p0 := s.View();
    ghost var recorded := Good(t, s) && s.log == [] && LogOk(t, log) && argv == Tokens(log);
    HeldStart(t, p0, argv);
    RebuiltStart(log);
    if recorded {
      LogParts(t, log);
      TokensAt(t, log);
    }
    var i := 0;
    while i < |argv|
      invariant i <= |argv| && Formed(t, s) && (ok <==> AllAccepted(t, argv[..i], pattern))
      invariant forall cell: Cell :: cell.id < BITS ==>
                Holds(s.View(), cell) == Held(t, Holds(p0, cell), cell, argv[..i])
      invariant recorded ==> |argv| == |log| && ok && Good(t, s) && s.log == Rebuilt(log[..i])
    {
      ghost var p := s.View();
      if recorded {
        RecordedOp(t, log, i, pattern);
      }
      var err := SetSelector(s, t, argv[i], pattern);
      if err != None {
        ok := false;
      }
      OneMoreAccepted(t, argv, i, pattern);
      CellsNext(t, p0, p, s.View(), argv, i, pattern);
      i := i + 1;
    }
    assert argv[..|argv|] == argv;
    if recorded {
      assert log[..|log|] == log;
      LogIsPruned(t, log);
      RebuiltSame(log);
    }
  }

  lemma HeldStart(t: Table, p: Perms, argv: seq<string>)
    ensures AllAccepted(t, argv[..0], None) && AllAccepted(t, argv[..0], Some(EINVAL))
    ensures forall cell: Cell :: Held(t, Holds(p, cell), cell, argv[..0]) == Holds(p, cell)
  {
    hide Holds;
    assert argv[..0] == [];
  }

  lemma RebuiltStart(log: Log)
    ensures Rebuilt(log[..0]) == []
  {
    assert log[..0] == [];
  }

  lemma OneMoreAccepted(t: Table, argv: seq<string>, i: nat, pattern: Option<Errno>)
    requires i < |argv|
    ensures AllAccepted(t, argv[..i + 1], pattern)
            <==> AllAccepted(t, argv[..i], pattern) && !Meaning(t, argv[i], pattern).Refused?
  {
    hide Meaning;
    assert argv[..i + 1] == argv[..i] + [argv[i]];
  }

  lemma CellsNext(t: Table, p0: Perms, p: Perms, q: Perms, argv: seq<string>, i: nat, pattern: Option<Errno>)
    requires i < |argv|
    requires forall cell: Cell :: cell.id < BITS ==> Holds(p, cell) == Held(t, Holds(p0, cell), cell, argv[..i])
    requires Effected(t, p, q, Meaning(t, argv[i], pattern))
    ensures forall cell: Cell :: cell.id < BITS ==> Holds(q, cell) == Held(t, Holds(p0, cell), cell, argv[..i + 1])
  {
    hide Holds, Held, Meaning, CellAfter, Applied;
    forall cell: Cell | cell.id < BITS
      ensures Holds(q, cell) == Held(t, Holds(p0, cell), cell, argv[..i + 1])
    {
      HeldNext(t, Holds(p0, cell), cell, argv, i, pattern);
      EffectOnCells(t, p, q, Meaning(t, argv[i], pattern), cell);
    }
  }

  /** The operation behind a recorded rule. */
  lemma RecordedOp(t: Table, log: Log, i: nat, pattern: Option<Errno>)
    requires WellFormed(t) && LogOk(t, log) && i < |Tokens(log)|
    ensures |Tokens(log)| == |log| && Meaning(t, Tokens(log)[i], pattern) == Change(log[i]) && Canon(log[i]) == log[i]
    ensures ReadableOp(t, Tokens(log)[i]) && Rebuilt(log[..i + 1]) == After(Rebuilt(log[..i]), log[i])
  {
    hide WellFormed, Known, Canonical, RuleText, Meaning, Canon, ReadableOp, After, Rebuilt, Tokens;
    LogParts(t, log);
    TokensAt(t, log);
    TextMeans(t, log[i], pattern);
    RebuiltNext(log, i);
  }

  lemma LogIsPruned(t: Table, log: Log)
    requires LogOk(t, log)
    ensures Pruned(log)
  {
  }

  lemma RebuiltNext(log: Log, i: nat)
    requires i < |log|
    ensures Rebuilt(log[..i + 1]) == After(Rebuilt(log[..i]), log[i])
  {
    hide After;
    assert log[..i + 1][..i] == log[..i];
  }

  lemma RulesSplit(t: Table, log: Log)
    requires WellFormed(t) && LogOk(t, log)
    ensures SplitArgs(Text(log)) == Some(Tokens(log))
  {
    hide WellFormed, Known, Canonical, RuleText, SplitArgs, IsWord;
    LogParts(t, log);
    TokensAt(t, log);
    SplitJoin(Tokens(log));
  }

  lemma AllOp()
    ensures IsAll("+@all") && IsNone("-@all") && !IsAll("-@all") && Lower("+@all") == "+@all"
            && Lower("-@all") == "-@all"
  {
    assert Lower("+@all") == "+@all" && Lower("-@all") == "-@all";
    assert "-@all"[0] != "+@all"[0];
  }

  lemma BaseMeans(t: Table)
    ensures Meaning(t, "+@all", None) == AllowAll && Meaning(t, "-@all", None) == AllowNone
    ensures ReadableOp(t, "+@all") && ReadableOp(t, "-@all")
  {
    hide Parse, Lower;
    AllOp();
    SignedIsNotOther("+@all");
    SignedIsNotOther("-@all");
  }

  /** Starting over from the base that the reserved bit names, as both callers do. */
  method StartOver(s: Selector, t: Table, all: bool)
    requires WellFormed(t) && |s.allowed| == BITS
    modifies s
    ensures Formed(t, s) && Good(t, s) && s.log == [] && s.View() == if all then EVERYTHING else NOTHING
  {
    hide Good, ReadableOp, Meaning, Formed, WellFormed;
    BaseMeans(t);
    var err := SetSelector(s, t, if all then "+@all" else "-@all", None);
    StartGood(t, s, all);
  }

  lemma StartCells(all: bool, cell: Cell)
    requires cell.id < BITS
    ensures Holds(if all then EVERYTHING else NOTHING, cell) == (all && cell.Bit?)
  {
  }

  lemma GoodTable(t: Table, s: Selector)
    requires Good(t, s)
    ensures WellFormed(t) && LogOk(t, s.log) && s.rules == Text(s.log) && Agree(t, s.View(), s.log) && Formed(t, s)
  {
  }

  /** Describing a selector stops the server: the rule text cannot be split, one of its pieces is
      refused, or the pieces give another bitmap.  In the description no key or channel pattern
      is accepted, since its length is given as -1. */
  ghost predicate RulesPanic(t: Table, rules: string, allowed: seq<bool>)
    requires |allowed| == BITS
  {
    var argv := SplitArgs(rules);
    || argv.None? || !AllAccepted(t, argv.value, Some(EINVAL))
    || exists id :: 0 <= id < BITS && allowed[id] != Held(t, allowed[RESERVED], Bit(id), argv.value)
  }

  /** ACLDescribeSelectorCommandRules, for every selector: the description, and whether the
      sanity checks stop the server. */
  method DescribeSelectorCommandRules(s: Selector, t: Table) returns (text: string, panics: bool)
    requires Formed(t, s)
    ensures panics <==> RulesPanic(t, s.rules, s.allowed)
    ensures !panics ==>
              text == (if s.allowed[RESERVED] then "+@all" else "-@all") + (if s.rules == "" then "" else " " + s.rules)
  {
    hide SplitArgs, Text, WellFormed, ArgsOk, FlagOk, AllAccepted, Held, Good, Holds, LogOk;
    var all := s.allowed[RESERVED];
    text := if all then "+@all " else "-@all ";
    var fake := CreateSelector(t);
    StartOver(fake, t, all);
    var argv := SplitArgs(s.rules);
    if argv.None? {
      return text, true;
    }
    ghost var base := fake.View();
    var ok := ReplayRules(fake, t, argv.value, Some(EINVAL), []);
    if |s.rules| != 0 {
      text := text + s.rules + " ";
    }
    text := text[..|text| - 1];
    panics := !ok || fake.allowed != s.allowed;
    BitsCompared(t, s.allowed, fake.View(), all, argv.value);
  }

  lemma BitsCompared(t: Table, allowed: seq<bool>, q: Perms, all: bool, argv: seq<string>)
    requires |allowed| == |q.allowed| == BITS
    requires forall cell: Cell :: cell.id < BITS ==>
               Holds(q, cell) == Held(t, Holds(if all then EVERYTHING else NOTHING, cell), cell, argv)
    ensures q.allowed != allowed <==> exists id :: 0 <= id < BITS && allowed[id] != Held(t, all, Bit(id), argv)
  {
    hide Held, Holds;
    forall id | 0 <= id < BITS
      ensures q.allowed[id] == Held(t, all, Bit(id), argv)
    {
      HoldsBit(q, id);
      StartCells(all, Bit(id));
      assert Holds(q, Bit(id)) == Held(t, Holds(if all then EVERYTHING else NOTHING, Bit(id)), Bit(id), argv);
    }
    if q.allowed != allowed {
      var id :| 0 <= id < BITS && q.allowed[id] != allowed[id];
    }
  }

  /** Replaying the words of a log is replaying the log. */
  lemma {:induction false} HeldTokens(t: Table, all: bool, log: Log, cell: Cell)
    requires WellFormed(t) && AllKnown(t, log) && forall i :: 0 <= i < |log| ==> Canonical(log[i])
    ensures Held(t, all && cell.Bit?, cell, Tokens(log)) == Replayed(t, all, log, cell)
    decreases |log|
  {
    hide Meaning, WellFormed, Known, Canonical, RuleText, Writes, Value;
    if log != [] {
      var n := |log| - 1;
      HeldTokens(t, all, log[..n], cell);
      TextMeans(t, log[n], None);
      assert Tokens(log)[..|Tokens(log)| - 1] == Tokens(log[..n]);
    }
  }

  /** A selector whose first arguments can be written down never stops the server. */
  lemma GoodDescribes(t: Table, p: Perms, log: Log)
    requires WellFormed(t) && LogOk(t, log) && Agree(t, p, log)
    ensures !RulesPanic(t, Text(log), p.allowed)
    ensures forall cell: Cell :: cell.id < BITS ==>
              Holds(p, cell) == Held(t, p.allowed[RESERVED] && cell.Bit?, cell, Tokens(log))
  {
    hide SplitArgs, Text, WellFormed, LogOk, Tokens, Holds, Held, Replayed, Meaning, Known, Canonical;
    RulesSplit(t, log);
    LogParts(t, log);
    var argv := Tokens(log);
    forall i | 0 <= i < |argv|
      ensures !Meaning(t, argv[i], Some(EINVAL)).Refused?
    {
      RecordedOp(t, log, i, Some(EINVAL));
    }
    forall cell: Cell | cell.id < BITS
      ensures Holds(p, cell) == Held(t, p.allowed[RESERVED] && cell.Bit?, cell, argv)
    {
      HeldTokens(t, p.allowed[RESERVED], log, cell);
    }
    forall id | 0 <= id < BITS
      ensures p.allowed[id] == Held(t, p.allowed[RESERVED], Bit(id), argv)
    {
      HoldsBit(p, id);
      assert Holds(p, Bit(id)) == Held(t, p.allowed[RESERVED] && Bit(id).Bit?, Bit(id), argv);
    }
  }

  /** ACLRecomputeCommandBitsFromCommandRulesAllUsers, for one selector, after the command table
      has changed to `t`: every cell is what the recorded operations give in the new table.  If
      the table still knows all the rules, these stay as they are and everything agrees again. */
  method RecomputeCommandBits(s: Selector, t: Table, pattern: Option<Errno>, ghost before: Table) returns (ok: bool)
    requires WellFormed(t) && |s.allowed| == BITS
    modifies s
    ensures ok <==> SplitArgs(old(s.rules)).Some? && AllAccepted(t, SplitArgs(old(s.rules)).value, pattern)
    ensures ok ==> Formed(t, s) && forall cell: Cell :: cell.id < BITS ==>
              Holds(s.View(), cell) == Held(t, old(s.allowed[RESERVED]) && cell.Bit?, cell,
                SplitArgs(old(s.rules)).value)
    ensures old(Good(before, s)) && AllKnown(t, old(s.log)) ==>
              ok && Good(t, s) && s.rules == old(s.rules) && s.log == old(s.log)
    ensures old(Good(before, s)) && before == t ==>
              forall cell: Cell :: cell.id < BITS ==> Holds(s.View(), cell) == old(Holds(s.View(), cell))
  {
    hide SplitArgs, Text, WellFormed, ArgsOk, FlagOk, AllAccepted, Held, Holds, LogOk, Agree, Tokens, Replayed, Known;
    ghost var recorded := Good(before, s) && AllKnown(t, s.log);
    ghost var p, log := s.View(), s.log;
    if Good(before, s) {
      RulesSplit(before, s.log);
      if before == t {
        LogParts(t, s.log);
        GoodDescribes(t, p, s.log);
      }
      if recorded {
        LogInTable(before, t, s.log);
      }
    }
    var argv := SplitArgs(s.rules);
    if argv.None? {
      return false;
    }
    var all := s.allowed[RESERVED];
    StartOver(s, t, all);
    ok := ReplayRules(s, t, argv.value, pattern, log);
    forall cell: Cell | cell.id < BITS
      ensures Holds(if all then EVERYTHING else NOTHING, cell) == (all && cell.Bit?)
    {
      StartCells(all, cell);
    }
  }

  lemma StartGood(t: Table, s: Selector, all: bool)
    requires Formed(t, s) && s.log == [] && s.rules == "" && s.View() == if all then EVERYTHING else NOTHING
    ensures Good(t, s)
  {
    hide Agree, LogOk, Text, ArgsOk, FlagOk, WellFormed;
    StartAgrees(t);
  }

  lemma LogInTable(before: Table, t: Table, log: Log)
    requires LogOk(before, log) && AllKnown(t, log)
    ensures LogOk(t, log)
  {
    hide Known, Canonical, Pruned;
  }

  /** The rule text that a list of operations leaves, starting from none. */
  function RulesBy(t: Table, ops: seq<string>): string
    decreases |ops|
  {
    if ops == [] then ""
    else RulesWith(RulesBy(t, ops[..|ops| - 1]), ops[|ops| - 1], Meaning(t, ops[|ops| - 1], None))
  }

  ghost function BitsBy(t: Table, ops: seq<string>): (bits: seq<bool>)
    ensures |bits| == BITS && forall id :: 0 <= id < BITS ==> bits[id] == Held(t, false, Bit(id), ops)
  {
    seq(BITS, id requires 0 <= id < BITS => Held(t, false, Bit(id), ops))
  }

  lemma RulesNext(t: Table, ops: seq<string>, i: nat, pattern: Option<Errno>)
    requires i < |ops|
    ensures RulesBy(t, ops[..i + 1]) == RulesWith(RulesBy(t, ops[..i]), ops[i], Meaning(t, ops[i], pattern))
  {
    hide Parse, IsOther, IsAll, IsNone, RulesAfter;
    assert ops[..i + 1][..i] == ops[..i];
  }

  lemma BitsAre(t: Table, p: Perms, ops: seq<string>)
    requires |p.allowed| == BITS
    requires forall cell: Cell :: cell.id < BITS ==> Holds(p, cell) == Held(t, Holds(NOTHING, cell), cell, ops)
    ensures p.allowed == BitsBy(t, ops)
  {
    hide Held;
    forall id | 0 <= id < BITS
      ensures p.allowed[id] == Held(t, false, Bit(id), ops)
    {
      HoldsBit(p, id);
      HoldsBit(NOTHING, id);
      assert Holds(p, Bit(id)) == Held(t, Holds(NOTHING, Bit(id)), Bit(id), ops);
    }
  }

  /** Whatever operations are made on a new selector, accepted or refused, describing it stops the
      server exactly when the rule text they leave cannot be replayed; never, if no first argument
      has a blank or a quote in it. */
  method DescribeAfter(t: Table, ops: seq<string>, patterns: seq<Option<Errno>>) returns (text: string, panics: bool)
    requires WellFormed(t) && |patterns| == |ops|
    ensures panics <==> RulesPanic(t, RulesBy(t, ops), BitsBy(t, ops))
    ensures (forall i :: 0 <= i < |ops| ==> ReadableOp(t, ops[i])) ==> !panics
  {
    hide ReadableOp, WellFormed, Meaning, Held, Holds, RulesAfter, Applied, After, Canon, Good, CellAfter, RulesPanic,
      ArgsOk, FlagOk;
    var s := CreateSelector(t);
    ghost var readable := forall i :: 0 <= i < |ops| ==> ReadableOp(t, ops[i]);
    HeldStart(t, NOTHING, ops);
    assert ops[..0] == [];
    for i := 0 to |ops|
      invariant fresh(s) && Formed(t, s) && (readable ==> Good(t, s))
      invariant s.rules == RulesBy(t, ops[..i])
      invariant forall cell: Cell :: cell.id < BITS ==>
                Holds(s.View(), cell) == Held(t, Holds(NOTHING, cell), cell, ops[..i])
    {
      ghost var p := s.View();
      var err := SetSelector(s, t, ops[i], patterns[i]);
      CellsNext(t, NOTHING, p, s.View(), ops, i, patterns[i]);
      RulesNext(t, ops, i, patterns[i]);
    }
    assert ops[..|ops|] == ops;
    BitsAre(t, s.View(), ops);
    text, panics := DescribeSelectorCommandRules(s, t);
    if readable {
      GoodTable(t, s);
      GoodDescribes(t, s.View(), s.log);
    }
  }

  // ----- what the permissions are for -----

  /** The command part of ACLSelectorCheckCmd, for a command with or without a first argument. */
  predicate MayRun(p: Perms, id: nat, arg: Option<string>) {
    p.allCommands || Holds(p, Bit(id)) || (arg.Some? && Holds(p, Arg(id, Lower(arg.value))))
  }

  /** Some rule of the log says yes about a cell and no later one says anything, or none says
      anything and that is what the selector started from. */
  ghost predicate LastSaysYes(t: Table, all: bool, log: Log, cell: Cell) {
    || (exists i :: 0 <= i < |log| && SaysLast(t, log, cell, i) && Value(log[i], cell))
    || (all && cell.Bit? && forall i :: 0 <= i < |log| ==> !Decides(t, log[i], cell))
  }

  ghost predicate SaysLast(t: Table, log: Log, cell: Cell, i: nat)
    requires i < |log|
  {
    Decides(t, log[i], cell) && forall j :: i < j < |log| ==> !Decides(t, log[j], cell)
  }

  lemma {:induction false} LastRuleWins(t: Table, all: bool, log: Log, cell: Cell)
    ensures Replayed(t, all, log, cell) <==> LastSaysYes(t, all, log, cell)
    decreases |log|
  {
    hide Decides, Value;
    if log != [] {
      var n := |log| - 1;
      var before := log[..n];
      LastRuleWins(t, all, before, cell);
      if Decides(t, log[n], cell) {
        assert SaysLast(t, log, cell, n);
      } else {
        assert forall i :: 0 <= i < n ==> before[i] == log[i];
        assert forall i :: 0 <= i < n ==> SaysLast(t, before, cell, i) == SaysLast(t, log, cell, i);
      }
    }
  }

  /** A command may run exactly when the last rule about it allows it, or when a rule that comes
      after it allows the first argument, in any case. */
  lemma MayRunExactly(t: Table, p: Perms, log: Log, id: nat, arg: Option<string>)
    requires Agree(t, p, log) && FlagOk(p) && id < BITS
    ensures var all := p.allowed[RESERVED];
            MayRun(p, id, arg)
            <==> (|| LastSaysYes(t, all, log, Bit(id))
                  || (arg.Some? && LastSaysYes(t, all, log, Arg(id, Lower(arg.value)))))
  {
    hide Replayed, LastSaysYes, Holds, Lower;
    HoldsBit(p, id);
    LastRuleWins(t, p.allowed[RESERVED], log, Bit(id));
    if arg.Some? {
      LastRuleWins(t, p.allowed[RESERVED], log, Arg(id, Lower(arg.value)));
    }
  }

  /** Two selectors with the same log and the same reserved bit allow the same. */
  lemma SamePerms(t: Table, p: Perms, q: Perms, log: Log)
    requires Agree(t, p, log) && Agree(t, q, log) && p.allowed[RESERVED] == q.allowed[RESERVED]
    ensures p.allowed == q.allowed
    ensures forall cell: Cell :: cell.id < BITS ==> Holds(p, cell) == Holds(q, cell)
  {
    hide Replayed, Holds;
    forall i | 0 <= i < BITS
      ensures p.allowed[i] == q.allowed[i]
    {
      HoldsBit(p, i);
      HoldsBit(q, i);
      assert Holds(p, Bit(i)) == Holds(q, Bit(i));
    }
  }

  /** The ALLCOMMANDS flag is a shortcut that changes no verdict, so selectors that hold the same
      cells allow the same calls even if the flag differs. */
  lemma SameVerdicts(p: Perms, q: Perms, id: nat, arg: Option<string>)
    requires FlagOk(p) && FlagOk(q) && |p.allowed| == |q.allowed| == BITS && id < BITS
    requires forall cell: Cell :: cell.id < BITS ==> Holds(p, cell) == Holds(q, cell)
    ensures MayRun(p, id, arg) == MayRun(q, id, arg)
  {
    HoldsBit(p, id);
    HoldsBit(q, id);
  }

  // ----- first arguments that cannot be written down -----

  /** Different commands have different numbers. */
  ghost predicate OwnIds(t: Table) {
    forall a, b :: a in t.commands && b in t.commands && t.commands[a].id == t.commands[b].id ==> a == b
  }

  lemma LowerPlain(a: string)
    ensures IsPlain(Lower(a)) <==> IsPlain(a)
  {
    forall i | 0 <= i < |a|
      ensures var c, d := a[i], Lower(a)[i];
              (EndsToken(c) || c == '\"' || c == '\'') == (EndsToken(d) || d == '\"' || d == '\'')
    {
    }
  }

  lemma PlainTail(front: string, s: string)
    requires IsPlain(front)
    ensures IsPlain(front + s) <==> IsPlain(s)
  {
    if IsPlain(front + s) {
      forall i | 0 <= i < |s|
        ensures !EndsToken(s[i]) && s[i] != '\"' && s[i] != '\''
      {
        assert (front + s)[|front| + i] == s[i];
      }
    }
  }

  /** The text of a first-argument rule. */
  function ArgText(b: string, a: string): string {
    "+" + b + "|" + Lower(a)
  }

  lemma ArgTextIs(t: Table, b: string, a: string)
    requires WellFormed(t) && b in t.commands
    ensures var text := ArgText(b, a);
            && text == RuleText(Rule(true, FirstArg(b, a))) && text[1..] == Name(FirstArg(b, a))
            && (IsPlain(text) <==> IsPlain(a)) && !IsSpace(text[0])
  {
    hide Lower, NoBar;
    var front := "+" + b + "|";
    assert GoodName(b);
    PlainChar('+');
    PlainChar('|');
    PlainConcat("+", b);
    PlainConcat("+" + b, "|");
    assert ArgText(b, a) == front + Lower(a);
    LowerPlain(a);
    PlainTail(front, Lower(a));
  }

  /** No word of the log is covered by a name that is not plain. */
  lemma {:induction false} NothingCovered(t: Table, log: Log, name: string)
    requires WellFormed(t) && AllKnown(t, log) && (forall i :: 0 <= i < |log| ==> Canonical(log[i])) && !IsPlain(name)
    ensures Prune(log, name) == log
    decreases |log|
  {
    hide WellFormed, Known, Canonical, Name, IsPlain, Covers;
    forall i | 0 <= i < |log|
      ensures !Covers(name, Name(log[i].target))
    {
      NamePlain(t, log[i]);
      PlainNotCovered(name, Name(log[i].target));
    }
    PruneNothing(log, name);
  }

  lemma PlainNotCovered(name: string, rule: string)
    requires IsPlain(rule) && !IsPlain(name)
    ensures !Covers(name, rule)
  {
    if Covers(name, rule) {
      assert forall i :: 0 <= i < |name| ==> name[i] == rule[i];
    }
  }

  /** The rule text after an operation whose first argument is not plain. */
  lemma ArgRules(t: Table, log: Log, b: string, a: string)
    requires WellFormed(t) && LogOk(t, log) && Known(t, FirstArg(b, a)) && !IsPlain(a)
    ensures RulesAfter(Text(log), b + "|" + a, true) == (if log == [] then "" else Text(log) + " ") + ArgText(b, a)
  {
    hide WellFormed, LogOk, Text, Name, IsPlain, Keep, Join, Removed, Tokens, Prune, Known, Canonical, Before,
      RuleText, Words, Lower;
    var name := Lower(b + "|" + a);
    KnownFirstArg(t, b, a);
    LowerBase(t, b, a);
    ArgTextIs(t, b, a);
    LogParts(t, log);
    assert name == b + "|" + Lower(a);
    PlainChar('+');
    PlainTail("+", name);
    TwoPluses(b, a);
    assert !IsPlain(name);
    NothingCovered(t, log, name);
    TokensAt(t, log);
    KeepTokens(t, log, name);
    TextIs(log);
    TokensEmpty(log);
    TextEmpty(t, log);
    NoBefore();
    if log == [] {
      NothingRemoved(name);
    } else {
      RemovedWords([], Tokens(log), name);
      assert [] + Tokens(log) == Tokens(log);
    }
  }

  lemma TwoPluses(b: string, a: string)
    ensures "+" + (b + "|" + Lower(a)) == ArgText(b, a)
  {
  }

  lemma LowerBase(t: Table, b: string, a: string)
    requires WellFormed(t) && b in t.commands
    ensures Lower(b + "|" + a) == b + "|" + Lower(a)
  {
    hide IsPlain, Lower, NoBar;
    assert GoodName(b);
    LowerConcat(b + "|", a);
    LowerConcat(b, "|");
    LowerSigns();
  }

  /** An operation that allows this first argument is as long as its text. */
  lemma GivesArg(t: Table, op: string, b: string, a: string)
    requires WellFormed(t) && OwnIds(t) && b in t.commands
    requires CellAfter(t, false, Arg(t.commands[b].id, Lower(a)), Meaning(t, op, None))
    ensures |op| == |ArgText(b, a)| && (IsPlain(op) ==> IsPlain(a))
  {
    hide WellFormed, Parse, Lower, IsPlain, NoBar, IsAll, IsNone, IsOther;
    var e := Meaning(t, op, None);
    assert e.Change? && Parse(t, op) == Ok(e.rule);
    ParseKnown(t, op);
    ParseName(t, op);
    var x := e.rule.target;
    assert x.FirstArg? && t.commands[x.base].id == t.commands[b].id && Lower(x.arg) == Lower(a);
    assert x.base == b;
    ArgTextIs(t, b, a);
    assert Lower(op[1..]) == b + "|" + Lower(a);
    LowerLength(op[1..]);
    if IsPlain(op) {
      LowerPlain(op[1..]);
      PlainRest(op);
      PlainChar('+');
      PlainTail("+", Lower(op[1..]));
      TwoPluses(b, a);
    }
  }

  lemma LowerLength(s: string)
    ensures |Lower(s)| == |s|
  {
  }

  lemma PlainRest(s: string)
    requires s != [] && IsPlain(s)
    ensures IsPlain(s[1..])
  {
  }

  /** A list of operations none of which allows the first argument. */
  lemma {:induction false} NeverHeld(t: Table, cell: Cell, start: bool, ops: seq<string>)
    requires !start && forall i :: 0 <= i < |ops| ==> !CellAfter(t, false, cell, Meaning(t, ops[i], None))
    ensures !Held(t, start, cell, ops)
    decreases |ops|
  {
    hide Meaning, CellAfter;
    if ops != [] {
      NeverHeld(t, cell, start, ops[..|ops| - 1]);
    }
  }

  /** The pieces of the rule text: the words of the log, and what is left of the new rule. */
  lemma ArgPieces(t: Table, log: Log, b: string, a: string)
    requires WellFormed(t) && LogOk(t, log) && Known(t, FirstArg(b, a)) && !IsPlain(a)
    ensures var pieces := SplitArgs(ArgText(b, a));
            SplitArgs(RulesAfter(Text(log), b + "|" + a, true))
              == if pieces.None? then None else Some(Tokens(log) + pieces.value)
  {
    hide WellFormed, LogOk, Text, IsPlain, Join, Tokens, Known, Canonical, RuleText, SplitArgs, RulesAfter, IsWord;
    ArgRules(t, log, b, a);
    LogParts(t, log);
    TokensAt(t, log);
    TextIs(log);
    TokensEmpty(log);
    if log == [] {
      assert "" + ArgText(b, a) == ArgText(b, a);
      var pieces := SplitArgs(ArgText(b, a));
      assert pieces.Some? ==> Tokens(log) + pieces.value == pieces.value;
    } else {
      SplitBehind(Tokens(log), ArgText(b, a));
      assert Text(log) + " " + ArgText(b, a) == Join(Tokens(log)) + [' '] + ArgText(b, a);
    }
  }

  /** After a rule with a first argument that is not plain, replaying the text never allows that
      argument. */
  lemma ArgNotRebuilt(t: Table, all: bool, log: Log, b: string, a: string)
    requires WellFormed(t) && OwnIds(t) && LogOk(t, log) && Known(t, FirstArg(b, a)) && !IsPlain(a)
    ensures var argv := SplitArgs(RulesAfter(Text(log), b + "|" + a, true));
            var cell := Arg(t.commands[b].id, Lower(a));
            argv.Some? ==> !Held(t, all && cell.Bit?, cell, argv.value)
  {
    hide WellFormed, LogOk, Text, IsPlain, Tokens, Canonical, RuleText, SplitArgs, RulesAfter, Meaning, CellAfter,
      OwnIds, IsWord, Lower, Held;
    ArgPieces(t, log, b, a);
    ArgTextIs(t, b, a);
    LogParts(t, log);
    TokensAt(t, log);
    var cell := Arg(t.commands[b].id, Lower(a));
    var pieces := SplitArgs(ArgText(b, a));
    if pieces.Some? {
      SplitLengths(ArgText(b, a));
      var argv := Tokens(log) + pieces.value;
      forall i | 0 <= i < |argv|
        ensures !CellAfter(t, false, cell, Meaning(t, argv[i], None))
      {
        if CellAfter(t, false, cell, Meaning(t, argv[i], None)) {
          GivesArg(t, argv[i], b, a);
          if i < |log| {
            WordIsPlain(argv[i]);
          }
        }
      }
      NeverHeld(t, cell, false, argv);
    }
  }

  lemma WordIsPlain(s: string)
    requires IsWord(s)
    ensures IsPlain(s)
  {
  }

  /** The replay of the rule text gives the permissions of the selector. */
  ghost predicate Rebuilds(t: Table, rules: string, p: Perms)
    requires |p.allowed| == BITS
  {
    var argv := SplitArgs(rules);
    && argv.Some? && AllAccepted(t, argv.value, Some(EINVAL))
    && forall cell: Cell :: cell.id < BITS ==>
       Holds(p, cell) == Held(t, p.allowed[RESERVED] && cell.Bit?, cell, argv.value)
  }

  /** Whatever selector an accepted first-argument rule is added to: its rule text rebuilds it if
      and only if the argument has no blank and no quote in it. */
  lemma FirstArgRebuilds(t: Table, p: Perms, q: Perms, log: Log, b: string, a: string)
    requires WellFormed(t) && OwnIds(t) && LogOk(t, log) && Agree(t, p, log)
    requires Applied(t, p, q, Rule(true, FirstArg(b, a)))
    ensures Rebuilds(t, RulesAfter(Text(log), b + "|" + a, true), q) <==> IsPlain(a)
  {
    hide WellFormed, LogOk, Text, IsPlain, Tokens, SplitArgs, RulesAfter, Meaning, OwnIds, Held, Holds, AllAccepted,
      Lower, Agree, ArgsOk, FlagOk, Replayed, Name, After;
    var r := Rule(true, FirstArg(b, a));
    if IsPlain(a) {
      LowerBase(t, b, a);
      ArgName(b, a);
      GoodAfter(t, p, q, log, Text(log), r, b + "|" + a);
      var log' := After(log, Canon(r));
      GoodDescribes(t, q, log');
      GoodReplays(t, q, log');
    } else {
      ArgNotRebuilt(t, q.allowed[RESERVED], log, b, a);
      var cell := Arg(t.commands[b].id, Lower(a));
      BaseId(t, b);
      assert Holds(q, cell);
    }
  }

  lemma ArgName(b: string, a: string)
    ensures Name(FirstArg(b, a)) == b + "|" + Lower(a)
  {
  }

  lemma BaseId(t: Table, b: string)
    requires WellFormed(t) && b in t.commands
    ensures t.commands[b].id < BITS
  {
    hide GoodName;
    assert GoodBase(t.commands[b]);
  }

  lemma GoodReplays(t: Table, q: Perms, log: Log)
    requires WellFormed(t) && LogOk(t, log) && Agree(t, q, log)
    ensures Rebuilds(t, Text(log), q)
  {
    hide WellFormed, LogOk, Text, Tokens, SplitArgs, Held, Holds, AllAccepted, Replayed;
    GoodDescribes(t, q, log);
    RulesSplit(t, log);
    NoPanicAccepts(t, log, q.allowed);
  }

  lemma NoPanicAccepts(t: Table, log: Log, allowed: seq<bool>)
    requires |allowed| == BITS && SplitArgs(Text(log)) == Some(Tokens(log)) && !RulesPanic(t, Text(log), allowed)
    ensures AllAccepted(t, Tokens(log), Some(EINVAL))
  {
    hide Text, Tokens, SplitArgs, Held, AllAccepted;
  }

  /** When describing the selector stops the server after such a rule: exactly when the pieces of
      the rule cannot be told apart, one of them is refused, or one of them changes the bitmap. */
  lemma FirstArgPanics(t: Table, p: Perms, q: Perms, log: Log, b: string, a: string)
    requires WellFormed(t) && LogOk(t, log) && Agree(t, p, log)
    requires Applied(t, p, q, Rule(true, FirstArg(b, a))) && !IsPlain(a)
    ensures var pieces := SplitArgs(ArgText(b, a));
            RulesPanic(t, RulesAfter(Text(log), b + "|" + a, true), q.allowed)
            <==> || pieces.None? || !AllAccepted(t, pieces.value, Some(EINVAL))
                 || exists id :: 0 <= id < BITS && p.allowed[id] != Held(t, p.allowed[id], Bit(id), pieces.value)
  {
    hide WellFormed, LogOk, Text, IsPlain, Tokens, SplitArgs, RulesAfter, Meaning, Held, Holds, Lower, Agree, ArgsOk,
      FlagOk;
    ArgPieces(t, log, b, a);
    GoodReplays(t, p, log);
    RulesSplit(t, log);
    SameBitmap(t, p, q, b, a);
    var pieces := SplitArgs(ArgText(b, a));
    if pieces.Some? {
      var argv := Tokens(log) + pieces.value;
      assert AllAccepted(t, argv, Some(EINVAL)) <==> AllAccepted(t, pieces.value, Some(EINVAL)) by {
        AcceptedConcat(t, Tokens(log), pieces.value, Some(EINVAL));
      }
      forall id | 0 <= id < BITS
        ensures Held(t, q.allowed[RESERVED], Bit(id), argv) == Held(t, p.allowed[id], Bit(id), pieces.value)
      {
        HeldConcat(t, q.allowed[RESERVED], Bit(id), Tokens(log), pieces.value);
        HoldsBit(p, id);
        assert Holds(p, Bit(id)) == Held(t, p.allowed[RESERVED] && Bit(id).Bit?, Bit(id), Tokens(log));
      }
    }
  }

  lemma AcceptedConcat(t: Table, a: seq<string>, b: seq<string>, pattern: Option<Errno>)
    requires AllAccepted(t, a, pattern)
    ensures AllAccepted(t, a + b, pattern) <==> AllAccepted(t, b, pattern)
  {
    hide Meaning;
    var all := a + b;
    if AllAccepted(t, all, pattern) {
      forall i | 0 <= i < |b|
        ensures !Meaning(t, b[i], pattern).Refused?
      {
        assert all[|a| + i] == b[i];
      }
    }
  }

  lemma SameBitmap(t: Table, p: Perms, q: Perms, b: string, a: string)
    requires Applied(t, p, q, Rule(true, FirstArg(b, a)))
    ensures q.allowed == p.allowed
  {
    hide Holds, ArgsOk, FlagOk, Lower;
    forall id | 0 <= id < BITS
      ensures q.allowed[id] == p.allowed[id]
    {
      HoldsBit(p, id);
      HoldsBit(q, id);
      assert Holds(q, Bit(id)) == Holds(p, Bit(id));
    }
  }

  // ----- three first arguments of SELECT -----

  ghost predicate HasSelect(t: Table) {
    WellFormed(t) && "select" in t.commands && !t.commands["select"].container
  }

  lemma SelectMeans(t: Table, op: string, x: string, pattern: Option<Errno>)
    requires HasSelect(t) && op == "+select|" + x && x != [] && NoBar(x) && Lower(x) == x
    ensures Meaning(t, op, pattern) == Change(Rule(true, FirstArg("select", x)))
  {
    hide WellFormed, Lookup, LastBar, Bar, Lower, IsAll, IsNone;
    var name := "select" + "|" + x;
    assert op[1..] == name && IsRule(op);
    LookupBase(t, "select");
    BarAt("select", x);
    SignedIsNotOther(op);
    BarIsNotAll(op);
  }

  lemma BarIsNotAll(op: string)
    requires |op| > 8 && op[0] == '+' && op[1] == 's'
    ensures !IsAll(op) && !IsNone(op)
  {
    var low := Lower(op);
    assert low[0] == '+' && low[1] == 's' && |low| == |op|;
    assert "allcommands"[0] == 'a' && "nocommands"[0] == 'n' && "+@all"[1] == '@' && "-@all"[1] == '@';
  }

  lemma SelectRules(t: Table, op: string, x: string)
    requires HasSelect(t) && op == "+select|" + x && x != [] && NoBar(x) && Lower(x) == x
    ensures RulesBy(t, [op]) == op
  {
    hide WellFormed, Meaning, Removed, Lower;
    SelectMeans(t, op, x, None);
    assert [op][..0] == [];
    var name := "select|" + x;
    assert op[1..] == name && op == "+" + name;
    NothingRemoved(Lower(name));
    LowerConcat("select|", x);
    SelectLower();
  }

  lemma SelectLower()
    ensures Lower("select|") == "select|"
  {
  }

  /** A blank makes two operations of one, and the second is not one: the server stops. */
  method DescribeBlank(t: Table) returns (panics: bool)
    requires HasSelect(t)
    ensures panics
  {
    hide WellFormed, Meaning, SplitArgs, Held, ReadableOp;
    var op := "+select|a b";
    ghost var x := "a b";
    assert op == "+select|" + x && NoBar(x) && Lower(x) == x;
    SelectRules(t, op, x);
    SplitBlank();
    BIsRefused(t);
    var text;
    text, panics := DescribeAfter(t, [op], [None]);
    assert ["+select|a", "b"][1] == "b";
  }

  lemma SplitBlank()
    ensures SplitArgs("+select|a b") == Some(["+select|a", "b"])
  {
    hide SplitArgs;
    assert IsWord("+select|a") && IsWord("b");
    assert "+select|a" + [' '] + "b" == "+select|a b";
    SplitPlain("+select|a", "b");
    SplitLast("b");
    assert ["+select|a"] + ["b"] == ["+select|a", "b"];
  }

  lemma BIsRefused(t: Table)
    ensures Meaning(t, "b", Some(EINVAL)).Refused?
  {
    assert |Lower("b")| == 1;
    assert |"allkeys"| == 7 && |"~*"| == 2 && |"resetkeys"| == 9 && |"allchannels"| == 11 && |"&*"| == 2
           && |"resetchannels"| == 13
        && |"allcommands"| == 11 && |"+@all"| == 5 && |"nocommands"| == 10 && |"-@all"| == 5;
  }

  /** A quote that is not closed cannot be split: the server stops. */
  method DescribeOpenQuote(t: Table) returns (panics: bool)
    requires HasSelect(t)
    ensures panics
  {
    hide WellFormed, Meaning, SplitArgs, Held, ReadableOp;
    var op := "+select|'a";
    ghost var x := "'a";
    assert op == "+select|" + x && NoBar(x) && Lower(x) == x;
    SelectRules(t, op, x);
    SplitOpenQuote();
    var text;
    text, panics := DescribeAfter(t, [op], [None]);
  }

  lemma QuoteBehind(tail: string)
    ensures Plain("+select|" + tail, []) == Plain(tail, "+select|")
  {
    assert IsPlain("+select|");
    PlainReads("+select|", tail, []);
    assert [] + "+select|" == "+select|";
  }

  lemma SplitOpenQuote()
    ensures SplitArgs("+select|'a").None?
  {
    var line := "+select|'a";
    QuoteBehind("'a");
    assert "+select|" + "'a" == line && SkipSpace(line) == line;
    assert "'a"[1..] == "a" && "a"[1..] == [];
    assert Single([], "+select|" + "a").None?;
    assert Single("a", "+select|").None?;
    assert Plain("'a", "+select|").None?;
  }

  /** Quotes around the argument are lost: the server goes on, with another first argument. */
  method DescribeQuoted(t: Table) returns (panics: bool)
    requires HasSelect(t) && OwnIds(t)
    ensures !panics
    ensures var id := t.commands["select"].id;
            && Held(t, false, Arg(id, "'a'"), ["+select|'a'"])
            && !Held(t, false, Arg(id, "'a'"), ["+select|a"]) && SplitArgs("+select|'a'") == Some(["+select|a"])
  {
    hide WellFormed, Meaning, SplitArgs, Held, ReadableOp;
    var op := "+select|'a'";
    ghost var x := "'a'";
    assert op == "+select|" + x && NoBar(x) && Lower(x) == x;
    SelectRules(t, op, x);
    SplitQuotedArg();
    QuotedHeld(t);
    var text;
    text, panics := DescribeAfter(t, [op], [None]);
  }

  lemma SplitOneToken(line: string, token: string)
    requires line != [] && !IsSpace(line[0]) && Plain(line, []) == Some((token, []))
    ensures SplitArgs(line) == Some([token])
  {
    hide Plain;
    assert SkipSpace(line) == line;
    assert SplitArgs([]) == Some([]) && [token] + [] == [token];
  }

  lemma QuotedToken()
    ensures Plain("'a'", "+select|") == Some(("+select|a", []))
  {
    assert "'a'"[1..] == "a'" && "a'"[1..] == "'" && "'"[1..] == [];
    assert "+select|" + "a" == "+select|a";
    assert Single("'", "+select|a") == Some(("+select|a", []));
    assert Single("a'", "+select|") == Some(("+select|a", []));
  }

  lemma SplitQuotedArg()
    ensures SplitArgs("+select|'a'") == Some(["+select|a"])
  {
    hide Plain, SplitArgs;
    var line := "+select|'a'";
    QuoteBehind("'a'");
    assert "+select|" + "'a'" == line;
    QuotedToken();
    SplitOneToken(line, "+select|a");
  }

  /** What the operation allows, and what its text allows. */
  lemma QuotedHeld(t: Table)
    requires HasSelect(t)
    ensures var id := t.commands["select"].id;
            && Held(t, false, Arg(id, "'a'"), ["+select|'a'"]) && !Held(t, false, Arg(id, "'a'"), ["+select|a"])
    ensures !RulesPanic(t, "+select|'a'", BitsBy(t, ["+select|'a'"]))
  {
    hide WellFormed, Meaning, SplitArgs, Lower, BitsBy;
    var a, b := "+select|'a'", "+select|a";
    SelectArgs();
    SelectMeans(t, a, "'a'", None);
    SelectMeans(t, b, "a", None);
    SelectMeans(t, b, "a", Some(EINVAL));
    SplitQuotedArg();
    assert [a][..0] == [] && [b][..0] == [];
    forall id | 0 <= id < BITS
      ensures Held(t, false, Bit(id), [a]) == false && Held(t, false, Bit(id), [b]) == false
    {
    }
    assert "'a'"[0] != "a"[0];
  }

  lemma SelectArgs()
    ensures "+select|" + "'a'" == "+select|'a'" && NoBar("'a'") && Lower("'a'") == "'a'"
    ensures "+select|" + "a" == "+select|a" && NoBar("a") && Lower("a") == "a"
  {
    assert Lower("'a'") == "'a'" && Lower("a") == "a";
  }
}
