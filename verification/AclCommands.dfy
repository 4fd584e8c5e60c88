/** acl.c: ACLSetSelector, as far as commands are concerned. */
module AclCommands {
  import opened Options
  import opened Letters
  import opened Sds
  import opened AclTable
  import opened AclReplay
  import opened AclRules
  import opened AclSelector
  import opened Acl
  import opened AclWords

  /** A first argument that survives being written into the rules and read back. */
  predicate ReadableEffect(e: Effect) {
    e.Change? && e.rule.target.FirstArg? ==> IsPlain(e.rule.target.arg)
  }

  predicate ReadableOp(t: Table, op: string) {
    ReadableEffect(Meaning(t, op, None))
  }

  lemma StartAgrees(t: Table)
    ensures Agree(t, EVERYTHING, []) && Agree(t, NOTHING, []) && FlagOk(EVERYTHING) && FlagOk(NOTHING)
    ensures LogOk(t, []) && Text([]) == "" && ArgsOk(t, map[])
  {
    forall cell: Cell | cell.id < BITS
      ensures Holds(EVERYTHING, cell) == Replayed(t, true, [], cell)
              && Holds(NOTHING, cell) == Replayed(t, false, [], cell)
    {
    }
  }

  /** A new selector has the invariant. */
  method CreateSelector(ghost t: Table) returns (s: Selector)
    requires WellFormed(t)
    ensures fresh(s) && Good(t, s) && Formed(t, s) && s.View() == NOTHING && s.log == [] && s.rules == ""
  {
    hide Agree, LogOk, Text, ArgsOk, FlagOk;
    StartAgrees(t);
    s := new Selector();
  }

  lemma CanonCanonical(t: Table, r: Rule)
    requires Known(t, r.target) && (r.target.FirstArg? ==> r.allow && IsPlain(r.target.arg))
    ensures Canonical(Canon(r)) && Known(t, Canon(r).target) && Canon(r).allow == r.allow
            && Name(Canon(r).target) == Name(r.target)
  {
    CanonSame(t, r, Bit(0));
    if r.target.FirstArg? {
      LowerTwice(r.target.arg);
    }
  }

  /** ACLChangeSelectorPerm for a command or subcommand. */
  method ChangeTarget(s: Selector, t: Table, x: Target, allow: bool)
    requires WellFormed(t) && Known(t, x) && (x.Command? || x.Subcommand?)
    requires |s.allowed| == BITS && FlagOk(s.View()) && ArgsOk(t, s.firstArgs)
    modifies s`allowed, s`firstArgs, s`allCommands
    ensures Applied(t, old(s.View()), s.View(), Rule(allow, x))
  {
    hide WellFormed, FlagOk, ArgsOk, Applied, Put, SubIds;
    if x.Command? {
      CommandApplies(t, s.View(), x.base, allow);
      s.ChangePerm(t.commands[x.base].id, t.commands[x.base].subs, allow);
    } else {
      SubcommandApplies(t, s.View(), x.base, x.sub, allow);
      NoIds("");
      assert {t.commands[x.base].subs[x.sub].id} + {} == {t.commands[x.base].subs[x.sub].id};
      s.ChangePerm(t.commands[x.base].subs[x.sub].id, map[], allow);
    }
  }

  /** The permissions and the text of one accepted rule. */
  method ApplyRule(s: Selector, t: Table, r: Rule, name: string)
    requires Formed(t, s) && Known(t, r.target) && (r.target.FirstArg? ==> r.allow)
    modifies s
    ensures Formed(t, s) && Applied(t, old(s.View()), s.View(), r)
    ensures s.rules == RulesAfter(old(s.rules), name, r.allow) && s.log == After(old(s.log), Canon(r))
  {
    hide WellFormed, ArgsOk, FlagOk, After, Known, Put, AllCategoryIds, AllCategoryResets, Added, Holds, Writes,
      Lower, RulesAfter;
    ghost var p := s.View();
    match r.target {
      case Command(_) | Subcommand(_, _) =>
        ChangeTarget(s, t, r.target, r.allow);
      case Category(c) =>
        KnownCategory(t, c);
        CategoryApplies(t, p, c, r.allow);
        s.SetBitsForCategory(t.commands, c, r.allow);
      case FirstArg(b, a) =>
        KnownFirstArg(t, b, a);
        FirstArgApplies(t, p, b, a);
        s.AddAllowedFirstArg(t.commands[b].id, a);
    }
    assert Applied(t, p, s.View(), r);
    UpdateCommandRules(s, name, r.allow);
    s.log := After(s.log, Canon(r));
  }

  /** Bitmap, first arguments and rule text go on agreeing. */
  lemma GoodAfter(t: Table, p: Perms, q: Perms, log: Log, rules: string, r: Rule, name: string)
    requires WellFormed(t) && LogOk(t, log) && rules == Text(log) && Agree(t, p, log) && Applied(t, p, q, r)
    requires (r.target.FirstArg? ==> r.allow && IsPlain(r.target.arg)) && Lower(name) == Name(r.target)
    ensures var log' := After(log, Canon(r));
            LogOk(t, log') && RulesAfter(rules, name, r.allow) == Text(log') && Agree(t, q, log')
  {
    hide WellFormed, LogOk, Text, ArgsOk, FlagOk, After, Canonical, Known, Holds, Replayed, Writes, Name, Lower,
      RulesAfter, IsPlain;
    CanonCanonical(t, r);
    LogParts(t, log);
    RulesAfterText(t, log, Canon(r), name);
    AgreeAfter(t, p, q, log, r);
  }

  lemma KnownCategory(t: Table, c: string)
    requires Known(t, Category(c))
    ensures c in t.categories
  {
  }

  lemma KnownFirstArg(t: Table, b: string, a: string)
    requires Known(t, FirstArg(b, a))
    ensures b in t.commands
  {
  }

  /** The permissions change from `p` to `q` as the effect says. */
  ghost predicate Effected(t: Table, p: Perms, q: Perms, e: Effect) {
    && (e.AllowAll? ==> q == EVERYTHING)
    && (e.AllowNone? ==> q == NOTHING)
    && (e.Refused? || e.Nothing? ==> q == p)
    && (forall r :: e == Change(r) ==> Applied(t, p, q, r))
  }

  /** The rule text after an operation. */
  function RulesWith(rules: string, op: string, e: Effect): string {
    if e.AllowAll? || e.AllowNone? then ""
    else if e.Change? && op != [] then RulesAfter(rules, op[1..], e.rule.allow)
    else rules
  }

  function LogWith(log: Log, e: Effect): Log {
    if e.AllowAll? || e.AllowNone? then [] else if e.Change? then After(log, Canon(e.rule)) else log
  }

  ghost predicate Untouched(p: Perms, rules: string, log: Log, s: Selector)
    reads s
  {
    s.View() == p && s.rules == rules && s.log == log
  }

  /** ACLSetSelector: an operation is refused with its error and without a trace, or permissions
      and rule text change together.  As long as first arguments have no blanks or quotes in
      them, they go on agreeing.  The words are read in any case. */
  method SetSelector(s: Selector, t: Table, op: string, pattern: Option<Errno>) returns (err: Option<Errno>)
    requires WellFormed(t) && |s.allowed| == BITS && (Meaning(t, op, pattern).Change? ==> Formed(t, s))
    modifies s
    ensures old(Formed(t, s)) || Meaning(t, op, pattern).AllowAll? || Meaning(t, op, pattern).AllowNone? ==>
            Formed(t, s)
    ensures old(Good(t, s)) && ReadableOp(t, op) ==> Good(t, s)
    ensures Lower(op) in ALL_WORDS ==> err == None && s.View() == EVERYTHING && s.rules == "" && s.log == []
    ensures Lower(op) in NONE_WORDS ==> err == None && s.View() == NOTHING && s.rules == "" && s.log == []
    ensures Lower(op) in KEY_WORDS ==> err == None && Untouched(old(s.View()), old(s.rules), old(s.log), s)
    ensures Marked(op) ==> err == pattern && Untouched(old(s.View()), old(s.rules), old(s.log), s)
    ensures Unknown(op) ==> err == Some(EINVAL)
    ensures Signed(op) ==> Verdict(t, op, err) && (err == None ==> exists r :: Spells(t, op, r))
    ensures forall r :: Spells(t, op, r) ==>
              && err == None && Applied(t, old(s.View()), s.View(), r)
              && s.rules == RulesAfter(old(s.rules), op[1..], r.allow) && s.log == After(old(s.log), Canon(r))
    ensures err.Some? ==> Untouched(old(s.View()), old(s.rules), old(s.log), s)
    ensures err == if Meaning(t, op, pattern).Refused? then Some(Meaning(t, op, pattern).errno) else None
    ensures Effected(t, old(s.View()), s.View(), Meaning(t, op, pattern))
    ensures s.rules == RulesWith(old(s.rules), op, Meaning(t, op, pattern))
    ensures s.log == LogWith(old(s.log), Meaning(t, op, pattern))
  {
    hide WellFormed, LogOk, Text, ArgsOk, FlagOk, After, Agree, Lookup, Lower, LastBar, Known, Name, IsPlain,
      RulesAfter, Applied, IsOther, IsAll, IsNone, Signed, Marked, Unknown, Verdict, Spells, Canon;
    MeaningOf(t, op, pattern);
    WordsOfRules(t, op);
    if IsOther(op) {
      return None;
    }
    if IsAll(op) {
      StartAgrees(t);
      s.allowed, s.allCommands, s.rules, s.firstArgs, s.log := AllBits(true), true, "", map[], [];
      return None;
    }
    if IsNone(op) {
      StartAgrees(t);
      s.allowed, s.allCommands, s.rules, s.firstArgs, s.log := AllBits(false), false, "", map[], [];
      return None;
    }
    if IsPattern(op) {
      return pattern;
    }
    if !IsRule(op) {
      return Some(EINVAL);
    }
    err := SetRule(s, t, op);
  }

  lemma WordsOfRules(t: Table, op: string)
    requires WellFormed(t)
    ensures Signed(op) ==>
              IsRule(op) && Verdict(t, op, if Parse(t, op).Fail? then Some(Parse(t, op).errno) else None)
    ensures Signed(op) && Parse(t, op).Ok? ==> Spells(t, op, Parse(t, op).rule)
    ensures forall r :: Spells(t, op, r) ==> Signed(op) && RuleEffect(t, op) == Change(r)
  {
    hide WellFormed, Verdict, Spells, Parse, Lower;
    if Signed(op) {
      RuleVerdict(t, op);
      if Parse(t, op).Ok? {
        ParseSpells(t, op);
      }
    }
    forall r | Spells(t, op, r)
      ensures Signed(op) && RuleEffect(t, op) == Change(r)
    {
      SpelledIsParsed(t, op, r);
    }
  }

  /** The branches of ACLSetSelector for rules. */
  method SetRule(s: Selector, t: Table, op: string) returns (err: Option<Errno>)
    requires WellFormed(t) && |s.allowed| == BITS && IsRule(op) && (Parse(t, op).Ok? ==> Formed(t, s))
    modifies s
    ensures old(Formed(t, s)) ==> Formed(t, s)
    ensures err == if Parse(t, op).Fail? then Some(Parse(t, op).errno) else None
    ensures Effected(t, old(s.View()), s.View(), RuleEffect(t, op))
    ensures s.rules == RulesWith(old(s.rules), op, RuleEffect(t, op)) && s.log == LogWith(old(s.log), RuleEffect(t, op))
    ensures old(Good(t, s)) && ReadableEffect(RuleEffect(t, op)) ==> Good(t, s)
  {
    hide WellFormed, LogOk, Text, ArgsOk, FlagOk, After, Agree, Lookup, Lower, LastBar, Known, Name, IsPlain,
      RulesAfter, Applied;
    var name := op[1..];
    var allow := op[0] == '+';
    if name != [] && name[0] == '@' {
      if Lower(name[1..]) !in t.categories {
        return Some(ENOENT);
      }
      Record(s, t, op, Rule(allow, Category(Lower(name[1..]))));
    } else if allow && !NoBar(name) {
      var i := LastBar(name);
      var cmd, sub := Lookup(t, name[..i]), name[i + 1..];
      if cmd == None {
        return Some(ENOENT);
      }
      if cmd.value.Subcommand? {
        return Some(ECHILD);
      }
      if |sub| == 0 {
        return Some(EINVAL);
      }
      LookupKnown(t, name[..i]);
      LookupCommand(t, name[..i]);
      if t.commands[cmd.value.base].container {
        var whole := Lookup(t, name);
        if whole == None {
          return Some(ENOENT);
        }
        Record(s, t, op, Rule(true, whole.value));
      } else {
        Record(s, t, op, Rule(true, FirstArg(cmd.value.base, sub)));
      }
    } else {
      var cmd := Lookup(t, name);
      if cmd == None {
        return Some(ENOENT);
      }
      Record(s, t, op, Rule(allow, cmd.value));
    }
    err := None;
  }

  lemma LookupCommand(t: Table, s: string)
    ensures Lookup(t, s).Some? && Lookup(t, s).value.Command? ==> Lookup(t, s).value.base in t.commands
  {
  }

  method Record(s: Selector, t: Table, op: string, r: Rule)
    requires Formed(t, s) && IsRule(op) && Parse(t, op) == Ok(r)
    modifies s
    ensures Formed(t, s) && Applied(t, old(s.View()), s.View(), r)
    ensures s.rules == RulesAfter(old(s.rules), op[1..], r.allow) && s.log == After(old(s.log), Canon(r))
    ensures old(Good(t, s)) && (r.target.FirstArg? ==> IsPlain(r.target.arg)) ==> Good(t, s)
  {
    hide Parse, After, Known, Name, Lower, IsPlain, Canon, RulesAfter, WellFormed, LogOk, Text, Agree, ArgsOk, FlagOk,
      Applied;
    ParseKnown(t, op);
    ParseName(t, op);
    ghost var p, log, rules := s.View(), s.log, s.rules;
    ApplyRule(s, t, r, op[1..]);
    if old(Good(t, s)) && (r.target.FirstArg? ==> IsPlain(r.target.arg)) {
      GoodAfter(t, p, s.View(), log, rules, r, op[1..]);
    }
  }
}
