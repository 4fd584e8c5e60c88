/** acl.c: what the operations on a selector mean for its command rules, and the text of these. */
module Acl {
  import opened Options
  import opened Letters
  import opened Sds
  import opened AclTable
  import opened AclReplay
  import opened AclRules
  import opened AclSelector

  datatype Errno = ENOENT | ECHILD | EINVAL | EEXIST | EISDIR
  datatype Parsed = Ok(rule: Rule) | Fail(errno: Errno)

  /** The first bar, or the end. */
  function Bar(s: string): (i: nat)
    ensures i <= |s| && (i < |s| ==> s[i] == '|') && forall k :: 0 <= k < i ==> s[k] != '|'
  {
    if s == [] || s[0] == '|' then 0 else 1 + Bar(s[1..])
  }

  /** strrchr for a bar. */
  function LastBar(s: string): (i: nat)
    requires !NoBar(s)
    ensures i < |s| && s[i] == '|' && NoBar(s[i + 1..])
  {
    var n := |s| - 1;
    if s[n] == '|' then n
    else
      assert exists k :: 0 <= k < n && s[..n][k] == '|' by {
        var k :| 0 <= k < |s| && s[k] == '|';
        assert s[..n][k] == '|';
      }
      var i := LastBar(s[..n]);
      assert forall k :: i < k < n ==> s[..n][i + 1..][k - i - 1] == s[k];
      i
  }

  /** ACLLookupCommand: a command, or a container and its subcommand with a bar between. */
  function Lookup(t: Table, s: string): Option<Target> {
    var i := Bar(s);
    if i == |s| then
      if Lower(s) in t.commands then Some(Command(Lower(s))) else None
    else
      var base, sub := Lower(s[..i]), s[i + 1..];
      if NoBar(sub) && base in t.commands && t.commands[base].container && Lower(sub) in t.commands[base].subs
      then Some(Subcommand(base, Lower(sub)))
      else None
  }

  predicate IsAll(op: string) {
    Lower(op) == "allcommands" || Lower(op) == "+@all"
  }

  predicate IsNone(op: string) {
    Lower(op) == "nocommands" || Lower(op) == "-@all"
  }

  predicate IsRule(op: string) {
    op != [] && (op[0] == '+' || op[0] == '-')
  }

  /** What a rule other than +@all and -@all means, or why it is refused. */
  function Parse(t: Table, op: string): Parsed
    requires IsRule(op)
  {
    var name := op[1..];
    if name != [] && name[0] == '@' then
      if Lower(name[1..]) in t.categories then Ok(Rule(op[0] == '+', Category(Lower(name[1..])))) else Fail(ENOENT)
    else if op[0] == '-' || NoBar(name) then
      var x := Lookup(t, name);
      if x.None? then Fail(ENOENT) else Ok(Rule(op[0] == '+', x.value))
    else
      var i := LastBar(name);
      var x, sub := Lookup(t, name[..i]), name[i + 1..];
      if x.None? then Fail(ENOENT)
      else if x.value.Subcommand? then Fail(ECHILD)
      else if sub == [] then Fail(EINVAL)
      else if t.commands[x.value.base].container then
        var y := Lookup(t, name);
        if y.None? then Fail(ENOENT) else Ok(Rule(true, y.value))
      else Ok(Rule(true, FirstArg(x.value.base, sub)))
  }

  /** Operations about all keys or all channels. */
  predicate IsOther(op: string) {
    Lower(op) in {"allkeys", "~*", "resetkeys", "allchannels", "&*", "resetchannels"}
  }

  predicate IsPattern(op: string) {
    op != [] && (op[0] == '~' || op[0] == '%' || op[0] == '&')
  }

  /** What an operation does to the command rules. */
  datatype Effect = Refused(errno: Errno) | Nothing | AllowAll | AllowNone | Change(rule: Rule)

  /** ACLSetSelector.  Whether a key or channel pattern is accepted depends on state that is not
      modelled, and is a parameter; it does not touch the command rules. */
  function Meaning(t: Table, op: string, pattern: Option<Errno>): Effect {
    if IsOther(op) then Nothing
    else if IsAll(op) then AllowAll
    else if IsNone(op) then AllowNone
    else if IsPattern(op) then if pattern.Some? then Refused(pattern.value) else Nothing
    else if IsRule(op) then RuleEffect(t, op)
    else Refused(EINVAL)
  }

  function RuleEffect(t: Table, op: string): Effect
    requires IsRule(op)
  {
    match Parse(t, op)
    case Ok(r) => Change(r)
    case Fail(e) => Refused(e)
  }

  /** The rule as the log keeps it: a first argument in lower case. */
  function Canon(r: Rule): Rule {
    if r.target.FirstArg? then r.(target := FirstArg(r.target.base, Lower(r.target.arg))) else r
  }

  lemma LookupKnown(t: Table, s: string)
    ensures Lookup(t, s).Some? ==>
            Known(t, Lookup(t, s).value) && (Lookup(t, s).value.Command? || Lookup(t, s).value.Subcommand?)
  {
  }

  /** An accepted rule is about something the table knows. */
  lemma ParseKnown(t: Table, op: string)
    requires IsRule(op) && Parse(t, op).Ok?
    ensures Known(t, Parse(t, op).rule.target) && (Parse(t, op).rule.target.FirstArg? ==> Parse(t, op).rule.allow)
  {
    hide Lookup, Lower;
    var name := op[1..];
    LookupKnown(t, name);
    if !NoBar(name) {
      LookupKnown(t, name[..LastBar(name)]);
    }
  }

  // ----- the text of the log -----

  function Tokens(log: Log): seq<string> {
    if log == [] then [] else Tokens(log[..|log| - 1]) + [RuleText(log[|log| - 1])]
  }

  function Text(log: Log): string {
    Join(Tokens(log))
  }

  /** How the log keeps a rule. */
  ghost predicate Canonical(r: Rule) {
    r.target.FirstArg? ==> r.allow && Lower(r.target.arg) == r.target.arg && IsPlain(r.target.arg)
  }

  ghost predicate LogOk(t: Table, log: Log) {
    AllKnown(t, log) && Pruned(log) && forall i :: 0 <= i < |log| ==> Canonical(log[i])
  }

  lemma PlainConcat(a: string, b: string)
    requires IsPlain(a) && IsPlain(b)
    ensures IsPlain(a + b)
  {
  }

  lemma PlainChar(c: char)
    requires !EndsToken(c) && c != '\"' && c != '\''
    ensures IsPlain([c])
  {
  }

  lemma NamePlain(t: Table, r: Rule)
    requires WellFormed(t) && Known(t, r.target) && Canonical(r)
    ensures IsPlain(Name(r.target)) && Lower(Name(r.target)) == Name(r.target)
  {
    hide IsPlain, Lower, NoBar;
    PlainChar('|');
    PlainChar('@');
    match r.target {
      case Command(b) => assert GoodName(b);
      case Category(c) =>
        assert GoodName(c);
        PlainConcat("@", c);
        LowerConcat("@", c);
      case Subcommand(b, s) =>
        assert GoodName(b) && GoodBase(t.commands[b]) && GoodName(s);
        PlainConcat(b, "|");
        PlainConcat(b + "|", s);
        LowerConcat(b, "|");
        LowerConcat(b + "|", s);
      case FirstArg(b, a) =>
        assert GoodName(b);
        PlainConcat(b, "|");
        PlainConcat(b + "|", a);
        LowerConcat(b, "|");
        LowerConcat(b + "|", a);
    }
    LowerSigns();
  }

  lemma LowerSigns()
    ensures Lower("|") == "|" && Lower("@") == "@"
  {
  }

  lemma TokenWord(t: Table, r: Rule)
    requires WellFormed(t) && Known(t, r.target) && Canonical(r)
    ensures IsWord(RuleText(r)) && Word(RuleText(r)) && RuleText(r)[1..] == Name(r.target)
  {
    hide Name, Lower, NoBar, WellFormed, Known, Canonical;
    NamePlain(t, r);
    var sign := if r.allow then '+' else '-';
    assert RuleText(r) == [sign] + Name(r.target);
  }

  lemma {:induction false} TokensAt(t: Table, log: Log)
    requires WellFormed(t) && AllKnown(t, log) && forall i :: 0 <= i < |log| ==> Canonical(log[i])
    ensures |Tokens(log)| == |log|
    ensures forall i :: 0 <= i < |log| ==> Tokens(log)[i] == RuleText(log[i]) && IsWord(RuleText(log[i]))
    ensures Words(Tokens(log))
    decreases |log|
  {
    hide IsWord, Word, RuleText, WellFormed, Canonical, Known;
    if log != [] {
      TokensAt(t, log[..|log| - 1]);
      TokenWord(t, log[|log| - 1]);
    }
  }

  /** Pruning the words is pruning the log. */
  lemma {:induction false} KeepTokens(t: Table, log: Log, name: string)
    requires WellFormed(t) && AllKnown(t, log) && (forall i :: 0 <= i < |log| ==> Canonical(log[i]))
             && Words(Tokens(log))
    ensures Keep(Tokens(log), name) == Tokens(Prune(log, name))
    decreases |log|
  {
    hide RuleText, Covers, Name, WellFormed, Canonical, Known, Word;
    if log != [] {
      var n := |log| - 1;
      TokensAt(t, log[..n]);
      TokenWord(t, log[n]);
      KeepTokens(t, log[..n], name);
      assert Tokens(log)[..n] == Tokens(log[..n]);
      if !Covers(name, Name(log[n].target)) {
        TokensSnoc(Prune(log[..n], name), log[n]);
      }
    }
  }

  lemma TokensSnoc(log: Log, r: Rule)
    ensures Tokens(log + [r]) == Tokens(log) + [RuleText(r)]
  {
    assert (log + [r])[..|log|] == log;
  }

  lemma TextAfter(log: Log, r: Rule)
    ensures Text(log + [r]) == (if log == [] then "" else Text(log) + " ") + RuleText(r)
  {
    hide Join, Tokens, RuleText;
    TokensSnoc(log, r);
    TokensEmpty(log);
    JoinOne(RuleText(r));
    if log == [] {
      assert Tokens(log) + [RuleText(r)] == [RuleText(r)] && "" + RuleText(r) == RuleText(r);
    } else {
      JoinSplit(Tokens(log), [RuleText(r)]);
      assert Text(log) + (" " + RuleText(r)) == Text(log) + " " + RuleText(r);
    }
  }

  lemma TokensEmpty(log: Log)
    ensures Tokens(log) == [] <==> log == []
  {
  }

  lemma TextEmpty(t: Table, log: Log)
    requires WellFormed(t) && AllKnown(t, log) && forall i :: 0 <= i < |log| ==> Canonical(log[i])
    ensures Text(log) == "" <==> log == []
  {
    hide RuleText, WellFormed, Canonical, Known, IsWord, Tokens;
    TokensAt(t, log);
    if log != [] {
      TokenWord(t, log[0]);
      assert Tokens(log)[0] == RuleText(log[0]);
      WordNotEmpty(RuleText(log[0]));
    } else {
      TokensEmpty(log);
    }
  }

  lemma WordNotEmpty(s: string)
    requires IsWord(s)
    ensures s != []
  {
  }

  lemma AfterOk(t: Table, log: Log, r: Rule)
    requires LogOk(t, log) && Known(t, r.target) && Canonical(r)
    ensures LogOk(t, After(log, r))
    ensures LogOk(t, Prune(log, Name(r.target)))
  {
    hide Covers, Name, Prune, Known, Canonical;
    var p := Prune(log, Name(r.target));
    PruneContents(log, Name(r.target));
    AfterKnown(t, log, r);
    AfterPruned(log, r);
    PrunePruned(log, Name(r.target));
    forall i | 0 <= i < |p|
      ensures Canonical(p[i]) && Known(t, p[i].target)
    {
      assert p[i] in p;
    }
  }

  /** The text of the rules with a new one at the end. */
  function RulesAfter(rules: string, name: string, allow: bool): string {
    var kept := Removed([], rules, Lower(name));
    (if kept == [] then [] else kept + " ") + ([if allow then '+' else '-'] + Lower(name))
  }

  /** ACLUpdateCommandRules, for any text. */
  method UpdateCommandRules(s: Selector, name: string, allow: bool)
    modifies s`rules
    ensures s.rules == RulesAfter(old(s.rules), name, allow)
  {
    hide Removed, Lower;
    var newRule := Lower(name);
    var rules := RemoveCommandRule(s.rules, newRule);
    if |rules| != 0 {
      rules := rules + " ";
    }
    s.rules := rules + ([if allow then '+' else '-'] + newRule);
  }

  /** The text of a log becomes the text of the log with the new rule, pruned. */
  lemma RulesAfterText(t: Table, log: Log, r: Rule, name: string)
    requires WellFormed(t) && LogOk(t, log) && Known(t, r.target) && Canonical(r) && Name(r.target) == Lower(name)
    ensures RulesAfter(Text(log), name, r.allow) == Text(After(log, r)) && LogOk(t, After(log, r))
  {
    hide Join, Tokens, Keep, Covers, Name, Prune, Known, Canonical, WellFormed, Lower, Words, LogOk, Text, Removed,
      Before;
    LogParts(t, log);
    TextIs(log);
    TokensAt(t, log);
    KeepTokens(t, log, Name(r.target));
    AfterOk(t, log, r);
    var kept := Prune(log, Name(r.target));
    LogParts(t, kept);
    TextIs(kept);
    TextEmpty(t, kept);
    TextAfter(kept, r);
    TokensEmpty(log);
    NoBefore();
    if log == [] {
      NothingRemoved(Lower(name));
      assert kept == [] by { PruneNone(Name(r.target)); }
    } else {
      RemovedWords([], Tokens(log), Lower(name));
      assert [] + Keep(Tokens(log), Lower(name)) == Keep(Tokens(log), Lower(name));
    }
  }

  lemma NoBefore()
    ensures Before([]) == [] && Join([]) == []
  {
  }

  lemma NothingRemoved(name: string)
    ensures Removed([], [], name) == []
  {
  }

  lemma PruneNone(name: string)
    ensures Prune([], name) == []
  {
  }

  lemma LogParts(t: Table, log: Log)
    requires LogOk(t, log)
    ensures AllKnown(t, log) && forall i :: 0 <= i < |log| ==> Canonical(log[i])
  {
  }

  lemma TextIs(log: Log)
    ensures Text(log) == Join(Tokens(log))
  {
  }

  // ----- the permissions and the log agree -----

  /** The permissions are what replaying the log gives. */
  ghost predicate Agree(t: Table, p: Perms, log: Log) {
    && |p.allowed| == BITS
    && forall cell: Cell :: cell.id < BITS ==> Holds(p, cell) == Replayed(t, p.allowed[RESERVED], log, cell)
  }

  /** First arguments are kept for commands only. */
  ghost predicate ArgsOk(t: Table, firstArgs: map<nat, seq<string>>) {
    forall id :: id in firstArgs ==> exists n :: n in t.commands && t.commands[n].id == id
  }

  predicate FlagOk(p: Perms) {
    p.allCommands ==> forall i :: 0 <= i < |p.allowed| ==> p.allowed[i]
  }

  /** What every operation keeps. */
  ghost predicate Formed(t: Table, s: Selector)
    reads s
  {
    WellFormed(t) && |s.allowed| == BITS && ArgsOk(t, s.firstArgs) && FlagOk(s.View())
  }

  /** The invariant of a selector whose first arguments can all be written down: bitmap, first
      arguments and rule text agree. */
  ghost predicate Good(t: Table, s: Selector)
    reads s
  {
    && WellFormed(t) && LogOk(t, s.log) && s.rules == Text(s.log)
    && Agree(t, s.View(), s.log) && ArgsOk(t, s.firstArgs) && FlagOk(s.View())
  }

  /** The permissions change as the rule says. */
  ghost predicate Applied(t: Table, p: Perms, q: Perms, r: Rule) {
    && Known(t, r.target) && |p.allowed| == |q.allowed| == BITS
    && (forall cell: Cell :: cell.id < BITS ==>
          Holds(q, cell) == if Writes(t, r.target, cell) then Value(r, cell) else Holds(p, cell))
    && ArgsOk(t, q.firstArgs) && FlagOk(q)
  }

  lemma NeverReserved(t: Table, x: Target)
    requires WellFormed(t) && Known(t, x)
    ensures !Writes(t, x, Bit(RESERVED))
  {
    hide IsPlain, Lower, GoodName;
    forall b | b in t.commands
      ensures !BaseWrites(t.commands[b], Bit(RESERVED)) && forall m :: m in t.commands[b].subs ==>
              t.commands[b].subs[m].id < RESERVED
    {
      assert GoodBase(t.commands[b]);
    }
  }

  lemma AgreeAfter(t: Table, p: Perms, q: Perms, log: Log, r: Rule)
    requires WellFormed(t) && AllKnown(t, log) && Agree(t, p, log) && Applied(t, p, q, r)
    ensures Agree(t, q, After(log, Canon(r)))
  {
    hide WellFormed, Writes, Replayed, After, Holds, Value, Known;
    var all := p.allowed[RESERVED];
    NeverReserved(t, r.target);
    HoldsBit(p, RESERVED);
    HoldsBit(q, RESERVED);
    forall cell: Cell | cell.id < BITS
      ensures Holds(q, cell) == Replayed(t, all, After(log, Canon(r)), cell)
    {
      CanonSame(t, r, cell);
      AfterReplays(t, all, log, Canon(r), cell);
    }
    assert q.allowed[RESERVED] == all;
  }

  lemma HoldsBit(p: Perms, id: nat)
    requires id < |p.allowed|
    ensures Holds(p, Bit(id)) == p.allowed[id]
  {
  }

  lemma CanonSame(t: Table, r: Rule, cell: Cell)
    requires Known(t, r.target)
    ensures Known(t, Canon(r).target) && Writes(t, Canon(r).target, cell) == Writes(t, r.target, cell)
    ensures Value(Canon(r), cell) == Value(r, cell) && Name(Canon(r).target) == Name(r.target)
  {
    if r.target.FirstArg? {
      LowerTwice(r.target.arg);
      LowerNoBar(r.target.arg);
    }
  }

  // ----- what each kind of rule does -----

  lemma FlagAfterPut(p: Perms, ids: set<nat>, value: bool, resets: set<nat>)
    requires FlagOk(p)
    ensures FlagOk(Put(p, ids, value, resets))
  {
  }

  lemma ArgsAfterPut(t: Table, p: Perms, ids: set<nat>, value: bool, resets: set<nat>)
    requires ArgsOk(t, p.firstArgs)
    ensures ArgsOk(t, Put(p, ids, value, resets).firstArgs)
  {
    PutIs(p, ids, value, resets);
  }

  lemma CommandApplies(t: Table, p: Perms, b: string, allow: bool)
    requires b in t.commands && |p.allowed| == BITS && FlagOk(p) && ArgsOk(t, p.firstArgs)
    ensures var c := t.commands[b];
            Applied(t, p, Put(p, {c.id} + SubIds(c.subs), allow, {c.id}), Rule(allow, Command(b)))
  {
    hide Holds, Put, ArgsOk, FlagOk;
    var c := t.commands[b];
    var ids := {c.id} + SubIds(c.subs);
    FlagAfterPut(p, ids, allow, {c.id});
    ArgsAfterPut(t, p, ids, allow, {c.id});
    forall cell: Cell | cell.id < BITS
      ensures Holds(Put(p, ids, allow, {c.id}), cell)
              == if Writes(t, Command(b), cell) then Value(Rule(allow, Command(b)), cell) else Holds(p, cell)
    {
      PutHolds(p, ids, allow, {c.id}, cell);
    }
  }

  lemma SubcommandApplies(t: Table, p: Perms, b: string, s: string, allow: bool)
    requires WellFormed(t) && Known(t, Subcommand(b, s)) && |p.allowed| == BITS && FlagOk(p) && ArgsOk(t, p.firstArgs)
    ensures var id := t.commands[b].subs[s].id;
            Applied(t, p, Put(p, {id}, allow, {id}), Rule(allow, Subcommand(b, s)))
  {
    hide Put, FlagOk, GoodName;
    var id := t.commands[b].subs[s].id;
    FlagAfterPut(p, {id}, allow, {id});
    ArgsAfterPut(t, p, {id}, allow, {id});
    assert id !in p.firstArgs;
    forall cell: Cell | cell.id < BITS
      ensures Holds(Put(p, {id}, allow, {id}), cell)
              == if Writes(t, Subcommand(b, s), cell) then Value(Rule(allow, Subcommand(b, s)), cell)
                else Holds(p, cell)
    {
      PutHolds(p, {id}, allow, {id}, cell);
    }
  }

  lemma FirstArgApplies(t: Table, p: Perms, b: string, a: string)
    requires Known(t, FirstArg(b, a)) && |p.allowed| == BITS && FlagOk(p) && ArgsOk(t, p.firstArgs)
    ensures Applied(t, p, p.(firstArgs := Added(p.firstArgs, t.commands[b].id, a)), Rule(true, FirstArg(b, a)))
  {
    hide Holds, Lower;
    var q := p.(firstArgs := Added(p.firstArgs, t.commands[b].id, a));
    forall cell: Cell
      ensures Holds(q, cell) == if Writes(t, FirstArg(b, a), cell) then Value(Rule(true, FirstArg(b, a)), cell)
              else Holds(p, cell)
    {
      AddedHolds(p, t.commands[b].id, a, cell);
    }
  }

  lemma CategoryApplies(t: Table, p: Perms, c: string, allow: bool)
    requires WellFormed(t) && c in t.categories && |p.allowed| == BITS && FlagOk(p) && ArgsOk(t, p.firstArgs)
    ensures Applied(t, p, Put(p, AllCategoryIds(t.commands, t.commands.Keys, c), allow,
                              AllCategoryResets(t.commands, t.commands.Keys, c)), Rule(allow, Category(c)))
  {
    hide Holds, Put, FlagOk, ArgsOk, WellFormed, AllCategoryIds, AllCategoryResets, Writes;
    var ids, resets := AllCategoryIds(t.commands, t.commands.Keys, c),
      AllCategoryResets(t.commands, t.commands.Keys, c);
    FlagAfterPut(p, ids, allow, resets);
    ArgsAfterPut(t, p, ids, allow, resets);
    forall cell: Cell | cell.id < BITS
      ensures Holds(Put(p, ids, allow, resets), cell)
              == if Writes(t, Category(c), cell) then Value(Rule(allow, Category(c)), cell) else Holds(p, cell)
    {
      PutHolds(p, ids, allow, resets, cell);
      if cell.Bit? {
        CategoryBit(t, c, cell.id);
      } else {
        CategoryArg(t, p, c, cell.id, cell.arg);
      }
    }
  }

  lemma CategoryBit(t: Table, c: string, id: nat)
    requires c in t.categories
    ensures Writes(t, Category(c), Bit(id)) <==> id in AllCategoryIds(t.commands, t.commands.Keys, c)
  {
    forall b | b in t.commands
      ensures CategoryWrites(t.commands[b], c, Bit(id)) <==> id in CategoryIds(t.commands[b], c)
    {
      CategoryBitOf(t.commands[b], c, id);
    }
  }

  lemma CategoryBitOf(b: Base, c: string, id: nat)
    ensures CategoryWrites(b, c, Bit(id)) <==> id in CategoryIds(b, c)
  {
  }

  /** Forgetting the first arguments of a subcommand changes nothing: it has none. */
  lemma CategoryArg(t: Table, p: Perms, c: string, id: nat, a: string)
    requires WellFormed(t) && c in t.categories && ArgsOk(t, p.firstArgs)
    ensures Writes(t, Category(c), Arg(id, a)) ==> id in AllCategoryResets(t.commands, t.commands.Keys, c)
    ensures id in AllCategoryResets(t.commands, t.commands.Keys, c) && Holds(p, Arg(id, a)) ==>
            Writes(t, Category(c), Arg(id, a))
  {
    hide GoodName, GoodBase;
    if Writes(t, Category(c), Arg(id, a)) {
      var b :| b in t.commands && CategoryWrites(t.commands[b], c, Arg(id, a));
      assert id in CategoryResets(t.commands[b], c);
    }
    if id in AllCategoryResets(t.commands, t.commands.Keys, c) && Holds(p, Arg(id, a)) {
      var b :| b in t.commands && id in CategoryResets(t.commands[b], c);
      var n :| n in t.commands && t.commands[n].id == id;
      assert CategoryWrites(t.commands[b], c, Arg(id, a));
    }
  }
}
