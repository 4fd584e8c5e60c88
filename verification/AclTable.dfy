/** The command table that access rules refer to, and what a rule stands for. */
module AclTable {
  import opened Letters
  import opened Sds

  const BITS: nat := 1024      // USER_COMMAND_BITS_COUNT
  const RESERVED: nat := 1023  // set by +@all only

  predicate NoBar(s: string) {
    forall i :: 0 <= i < |s| ==> s[i] != '|'
  }

  datatype Sub = Sub(id: nat, categories: set<string>)

  datatype Base = Base(id: nat, categories: set<string>, container: bool, subs: map<string, Sub>)

  /** Commands and categories by their lower-case names. */
  datatype Table = Table(commands: map<string, Base>, categories: set<string>)

  predicate GoodName(s: string) {
    s != [] && IsPlain(s) && NoBar(s) && Lower(s) == s
  }

  /** Names are words in lower case, no command has the reserved bit, and no subcommand shares
      its number with a command. */
  ghost predicate WellFormed(t: Table) {
    && (forall n, n', m :: n in t.commands && n' in t.commands && m in t.commands[n'].subs ==>
          t.commands[n].id != t.commands[n'].subs[m].id)
    && (forall n :: n in t.commands ==> GoodName(n) && n[0] != '@' && GoodBase(t.commands[n]))
    && (forall c :: c in t.categories ==> GoodName(c) && c != "all")
  }

  ghost predicate GoodBase(b: Base) {
    && b.id < RESERVED
    && (!b.container ==> b.subs == map[])
    && (forall m :: m in b.subs ==> GoodName(m) && b.subs[m].id < RESERVED)
  }

  // ----- what a rule is about -----

  datatype Target =
    | Command(base: string)
    | Subcommand(base: string, sub: string)
    | Category(category: string)
    | FirstArg(base: string, arg: string)

  datatype Rule = Rule(allow: bool, target: Target)

  predicate Known(t: Table, x: Target) {
    match x
    case Command(b) => b in t.commands
    case Subcommand(b, s) => b in t.commands && s in t.commands[b].subs
    case Category(c) => c in t.categories
    case FirstArg(b, a) => b in t.commands && !t.commands[b].container && a != [] && NoBar(a)
  }

  /** The name as it is kept in the rule text. */
  function Name(x: Target): string {
    match x
    case Command(b) => b
    case Subcommand(b, s) => b + "|" + s
    case Category(c) => "@" + c
    case FirstArg(b, a) => b + "|" + Lower(a)
  }

  function RuleText(r: Rule): string {
    [if r.allow then '+' else '-'] + Name(r.target)
  }

  /** What a selector holds: the bit of a command, or a first argument (in lower case). */
  datatype Cell = Bit(id: nat) | Arg(id: nat, arg: string)

  predicate BaseWrites(b: Base, cell: Cell) {
    match cell
    case Bit(id) => id == b.id || exists m :: m in b.subs && b.subs[m].id == id
    case Arg(id, _) => id == b.id
  }

  predicate SubWrites(s: Sub, cell: Cell) {
    cell == Bit(s.id)
  }

  /** The cells that a rule decides.  A container takes its subcommands with it, and a decision
      about a command forgets its first arguments. */
  ghost predicate Writes(t: Table, x: Target, cell: Cell)
    requires Known(t, x)
  {
    match x
    case Command(b) => BaseWrites(t.commands[b], cell)
    case Subcommand(b, s) => SubWrites(t.commands[b].subs[s], cell)
    case Category(c) =>
      exists b :: b in t.commands && CategoryWrites(t.commands[b], c, cell)
    case FirstArg(b, a) => cell == Arg(t.commands[b].id, Lower(a))
  }

  ghost predicate CategoryWrites(b: Base, c: string, cell: Cell) {
    || (c in b.categories && BaseWrites(b, cell))
    || (exists m :: m in b.subs && c in b.subs[m].categories && SubWrites(b.subs[m], cell))
  }

  /** What it decides. */
  predicate Value(r: Rule, cell: Cell) {
    if cell.Arg? then r.target.FirstArg? else r.allow
  }

  // ----- names -----

  /** A later rule makes an earlier one obsolete: the same name, or something under it. */
  predicate Covers(later: string, earlier: string) {
    earlier == later || (|earlier| > |later| && earlier[..|later|] == later && earlier[|later|] == '|')
  }

  function RestOf(x: Target): string
    requires x.Subcommand? || x.FirstArg?
  {
    if x.Subcommand? then x.sub else Lower(x.arg)
  }

  /** A name is one word, or two words with a bar between them. */
  lemma NameParts(t: Table, x: Target)
    requires WellFormed(t) && Known(t, x)
    ensures x.Command? ==> NoBar(Name(x)) && Name(x) != [] && Name(x)[0] != '@'
    ensures x.Category? ==> NoBar(Name(x)) && Name(x) != [] && Name(x)[0] == '@'
    ensures x.Subcommand? || x.FirstArg? ==>
              && NoBar(x.base) && x.base != [] && x.base[0] != '@' && NoBar(RestOf(x))
              && Name(x) == x.base + ("|" + RestOf(x))
  {
    hide IsPlain;
    match x {
      case Command(b) => assert GoodName(b);
      case Category(c) => assert GoodName(c);
      case Subcommand(b, s) =>
        assert GoodName(b) && GoodBase(t.commands[b]) && GoodName(s);
        TwoWords(b, s);
      case FirstArg(b, a) =>
        assert GoodName(b);
        LowerNoBar(a);
        TwoWords(b, Lower(a));
    }
  }

  lemma TwoWords(b: string, s: string)
    ensures b + "|" + s == b + ("|" + s)
  {
  }

  lemma LowerNoBar(a: string)
    requires NoBar(a)
    ensures NoBar(Lower(a))
  {
  }

  lemma FirstBar(a: string, x: string)
    requires NoBar(a)
    ensures var s := a + ("|" + x); s[|a|] == '|' && forall i :: 0 <= i < |a| ==> s[i] != '|'
  {
  }

  lemma BarUnique(a: string, x: string, b: string, y: string)
    requires NoBar(a) && NoBar(b) && a + ("|" + x) == b + ("|" + y)
    ensures a == b && x == y
  {
    var s := a + ("|" + x);
    FirstBar(a, x);
    FirstBar(b, y);
    assert |a| == |b|;
    assert a == s[..|a|] && b == s[..|b|] && x == s[|a| + 1..] && y == s[|b| + 1..];
  }

  /** Names tell targets apart. */
  lemma NameTells(t: Table, x: Target, y: Target)
    requires WellFormed(t) && Known(t, x) && Known(t, y) && Name(x) == Name(y)
    ensures x == y || (x.FirstArg? && y.FirstArg? && x.base == y.base && Lower(x.arg) == Lower(y.arg))
  {
    hide WellFormed, Known, Lower, Name;
    NameParts(t, x);
    NameParts(t, y);
    SubsMeanContainer(t, x);
    SubsMeanContainer(t, y);
    assert x.Subcommand? || x.FirstArg? ==> Name(x)[|x.base|] == '|';
    assert y.Subcommand? || y.FirstArg? ==> Name(y)[|y.base|] == '|';
    assert (x.Subcommand? || x.FirstArg?) == (y.Subcommand? || y.FirstArg?);
    if x.Subcommand? || x.FirstArg? {
      BarUnique(x.base, RestOf(x), y.base, RestOf(y));
    } else {
      OneWord(x, y);
    }
  }

  lemma OneWord(x: Target, y: Target)
    requires (x.Command? || x.Category?) && (y.Command? || y.Category?) && Name(x) == Name(y) && Name(x) != []
    requires (x.Command? ==> Name(x)[0] != '@') && (y.Command? ==> Name(y)[0] != '@')
    ensures x == y
  {
    if x.Category? && y.Category? {
      assert Name(x)[1..] == x.category && Name(y)[1..] == y.category;
    }
  }

  lemma SubsMeanContainer(t: Table, x: Target)
    requires WellFormed(t) && Known(t, x)
    ensures x.Subcommand? ==> x.base in t.commands && t.commands[x.base].container
    ensures x.FirstArg? ==> x.base in t.commands && !t.commands[x.base].container
  {
    if x.Subcommand? {
      assert GoodBase(t.commands[x.base]);
    }
  }

  /** What lies under a name belongs to the command of that name. */
  lemma UnderMeans(t: Table, later: Target, earlier: Target)
    requires WellFormed(t) && Known(t, later) && Known(t, earlier)
    requires Covers(Name(later), Name(earlier)) && Name(earlier) != Name(later)
    ensures later.Command? && (earlier.Subcommand? || earlier.FirstArg?) && earlier.base == later.base
  {
    hide WellFormed, Known, Lower, Name;
    var l, e := Name(later), Name(earlier);
    NameParts(t, later);
    NameParts(t, earlier);
    assert later.Subcommand? || later.FirstArg? ==> l[|later.base|] == '|';
    assert e[|l|] == '|';
    assert earlier.Subcommand? || earlier.FirstArg?;
    var b := earlier.base;
    SecondBar(b, RestOf(earlier), |l|);
    assert l == b && l[0] == b[0];
    CommandName(later);
  }

  /** The bar of a two-word name is its only one. */
  lemma SecondBar(a: string, x: string, i: nat)
    requires NoBar(a) && NoBar(x) && i < |a| + 1 + |x| && (a + ("|" + x))[i] == '|'
    ensures i == |a|
  {
    var s := a + ("|" + x);
    assert forall j :: |a| < j < |s| ==> s[j] == x[j - |a| - 1];
  }

  lemma CommandName(x: Target)
    ensures x.Command? ==> Name(x) == x.base
  {
  }

  /** So a rule that is covered decides nothing that the later one does not decide. */
  lemma CoversDecides(t: Table, later: Target, earlier: Target, cell: Cell)
    requires WellFormed(t) && Known(t, later) && Known(t, earlier)
    requires Covers(Name(later), Name(earlier)) && Writes(t, earlier, cell)
    ensures Writes(t, later, cell)
  {
    if Name(later) == Name(earlier) {
      NameTells(t, later, earlier);
    } else {
      UnderMeans(t, later, earlier);
    }
  }
}
