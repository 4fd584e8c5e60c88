/** acl.c: what an operation on a selector says, letter by letter, and which are refused. */
module AclWords {
  import opened Options
  import opened Letters
  import opened Sds
  import opened AclTable
  import opened Acl

  /** The operations that are whole words. */
  const ALL_WORDS := {"allcommands", "+@all"}
  const NONE_WORDS := {"nocommands", "-@all"}
  const KEY_WORDS := {"allkeys", "~*", "resetkeys", "allchannels", "&*", "resetchannels"}

  /** A rule that is none of the words. */
  predicate Signed(op: string) {
    op != [] && op[0] in {'+', '-'} && Lower(op) !in ALL_WORDS + NONE_WORDS
  }

  /** A key or channel pattern that is none of the words. */
  predicate Marked(op: string) {
    op != [] && op[0] in {'~', '%', '&'} && Lower(op) !in KEY_WORDS
  }

  predicate Unknown(op: string) {
    (op == [] || op[0] !in {'+', '-', '~', '%', '&'}) && Lower(op) !in ALL_WORDS + NONE_WORDS + KEY_WORDS
  }

  /** The name of a command, or of a subcommand with its container, in any case. */
  predicate NamesCommand(t: Table, s: string) {
    Lower(s) in t.commands
  }

  ghost predicate NamesSub(t: Table, s: string) {
    exists b, m :: Known(t, Subcommand(b, m)) && Lower(s) == Name(Subcommand(b, m))
  }

  /** The rule that an operation spells. */
  ghost predicate Spells(t: Table, op: string, r: Rule) {
    && op != [] && op[0] == (if r.allow then '+' else '-') && Known(t, r.target) && Lower(op[1..]) == Name(r.target)
    && (r.target.FirstArg? ==> r.allow && |r.target.arg| < |op| && op[|op| - |r.target.arg|..] == r.target.arg)
  }

  /** The last bar of an operation. */
  ghost predicate LastBarAt(op: string, i: nat) {
    i < |op| && op[i] == '|' && NoBar(op[i + 1..])
  }

  /** Why a rule is refused.  A subcommand takes no first argument, a first argument is not empty,
      a container takes only its subcommands, and otherwise the names have to be known. */
  ghost predicate Verdict(t: Table, op: string, err: Option<Errno>)
    requires Signed(op)
  {
    && (|op| > 1 && op[1] == '@' ==> err == if Lower(op[2..]) in t.categories then None else Some(ENOENT))
    && (!(|op| > 1 && op[1] == '@') && (op[0] == '-' || NoBar(op)) ==>
          err == if NamesCommand(t, op[1..]) || NamesSub(t, op[1..]) then None else Some(ENOENT))
    && forall i: nat :: LastBarAt(op, i) && op[0] == '+' && op[1] != '@' ==> err == BarVerdict(t, op, i)
  }

  ghost function BarVerdict(t: Table, op: string, i: nat): Option<Errno>
    requires 0 < i < |op|
  {
    if NamesSub(t, op[1..i]) then Some(ECHILD)
    else if !NamesCommand(t, op[1..i]) then Some(ENOENT)
    else if i == |op| - 1 then Some(EINVAL)
    else if t.commands[Lower(op[1..i])].container && !NamesSub(t, op[1..]) then Some(ENOENT)
    else None
  }

  // ----- looking names up -----

  lemma NoBarLower(s: string)
    ensures NoBar(Lower(s)) <==> NoBar(s)
  {
    assert forall i :: 0 <= i < |s| ==> (Lower(s)[i] == '|' <==> s[i] == '|');
  }

  lemma LowerPart(s: string, i: nat, j: nat)
    requires i <= j <= |s|
    ensures Lower(s[i..j]) == Lower(s)[i..j]
  {
  }

  lemma PartsOf(x: string, b: string, m: string)
    requires x == b + "|" + m
    ensures |x| == |b| + 1 + |m| && x[0..|b|] == b && x[|b|] == '|' && x[|b| + 1..|x|] == m
  {
  }

  lemma LowerAt(s: string, i: nat)
    requires i < |s| && Lower(s)[i] == '|'
    ensures s[i] == '|'
  {
  }

  lemma BarsOfName(b: string, m: string, s: string)
    requires NoBar(b) && NoBar(m) && Lower(s) == b + "|" + m
    ensures Bar(s) == |b| < |s| && NoBar(s[|b| + 1..]) && Lower(s[..|b|]) == b && Lower(s[|b| + 1..]) == m
  {
    hide Lower, NoBar, Bar, LowerChar;
    var n := |b|;
    PartsOf(Lower(s), b, m);
    LowerPart(s, 0, n);
    LowerPart(s, n + 1, |s|);
    LowerAt(s, n);
    assert s[..n] == s[0..n] && s[n + 1..] == s[n + 1..|s|];
    NoBarLower(s[..n]);
    NoBarLower(s[n + 1..]);
    FirstBarAt(s, n);
  }

  lemma FirstBarAt(s: string, n: nat)
    requires n < |s| && s[n] == '|' && NoBar(s[..n])
    ensures Bar(s) == n
  {
    assert forall k :: 0 <= k < n ==> s[k] == s[..n][k];
  }

  lemma LookupSub(t: Table, s: string, b: string, m: string)
    requires WellFormed(t) && Known(t, Subcommand(b, m)) && Lower(s) == Name(Subcommand(b, m))
    ensures Lookup(t, s) == Some(Subcommand(b, m))
  {
    hide Lower, Bar, NoBar, IsPlain;
    assert GoodName(b) && GoodBase(t.commands[b]) && GoodName(m);
    BarsOfName(b, m, s);
  }

  lemma LookupWord(t: Table, s: string)
    requires WellFormed(t) && NamesCommand(t, s)
    ensures Lookup(t, s) == Some(Command(Lower(s)))
  {
    hide IsPlain;
    assert GoodName(Lower(s));
    NoBarLower(s);
  }

  /** A lookup finds the name it is given, and nothing else. */
  lemma LookupNames(t: Table, s: string)
    requires WellFormed(t)
    ensures NamesCommand(t, s) <==> Lookup(t, s) == Some(Command(Lower(s)))
    ensures NamesSub(t, s) <==> Lookup(t, s).Some? && Lookup(t, s).value.Subcommand?
    ensures Lookup(t, s).Some? ==> NamesCommand(t, s) || NamesSub(t, s)
  {
    hide Lookup, Lower, WellFormed;
    if NamesCommand(t, s) {
      LookupWord(t, s);
    }
    if NamesSub(t, s) {
      var b, m :| Known(t, Subcommand(b, m)) && Lower(s) == Name(Subcommand(b, m));
      LookupSub(t, s, b, m);
    }
    LookedUp(t, s);
  }

  lemma LookedUp(t: Table, s: string)
    requires WellFormed(t)
    ensures Lookup(t, s).Some? && Lookup(t, s).value.Command? ==> Lookup(t, s).value == Command(Lower(s))
    ensures Lookup(t, s).Some? && Lookup(t, s).value.Command? ==> NamesCommand(t, s)
    ensures Lookup(t, s).Some? && Lookup(t, s).value.Subcommand? ==> NamesSub(t, s)
    ensures Lookup(t, s).Some? ==> Lookup(t, s).value.Command? || Lookup(t, s).value.Subcommand?
  {
    hide Lower, Bar, WellFormed;
    var x := Lookup(t, s);
    if x.Some? && x.value.Subcommand? {
      LowerAround(s, Bar(s));
      assert Known(t, Subcommand(x.value.base, x.value.sub));
    }
  }

  lemma LowerAround(s: string, i: nat)
    requires i < |s| && s[i] == '|'
    ensures Lower(s) == Lower(s[..i]) + "|" + Lower(s[i + 1..])
  {
    hide Lower;
    assert s == s[..i] + ("|" + s[i + 1..]);
    LowerConcat(s[..i], "|" + s[i + 1..]);
    LowerConcat("|", s[i + 1..]);
    LowerSigns();
    TwoWords(Lower(s[..i]), Lower(s[i + 1..]));
  }

  // ----- rules -----

  lemma OneLastBar(name: string, i: nat)
    requires LastBarAt(name, i) && !NoBar(name)
    ensures LastBar(name) == i
  {
    var j := LastBar(name);
    assert forall k :: j < k < |name| ==> name[k] == name[j + 1..][k - j - 1];
    assert forall k :: i < k < |name| ==> name[k] == name[i + 1..][k - i - 1];
  }

  ghost function ErrorOf(p: Parsed): Option<Errno> {
    if p.Fail? then Some(p.errno) else None
  }

  lemma NoBarInSign(op: string)
    requires op != [] && op[0] != '|'
    ensures NoBar(op) <==> NoBar(op[1..])
  {
    assert forall k :: 0 < k < |op| ==> op[k] == op[1..][k - 1];
  }

  lemma AfterSign(op: string, i: nat)
    requires op != [] && op[0] != '|' && LastBarAt(op, i)
    ensures i > 0 && !NoBar(op[1..]) && LastBar(op[1..]) == i - 1
    ensures op[1..][..i - 1] == op[1..i] && op[1..][i..] == op[i + 1..]
  {
    hide LastBar;
    assert op[1..][i - 1] == '|' && op[1..][i..] == op[i + 1..];
    OneLastBar(op[1..], i - 1);
  }

  lemma BarRule(t: Table, op: string, i: nat)
    requires WellFormed(t) && Signed(op) && op[0] == '+' && 0 < i && LastBarAt(op, i) && op[1] != '@'
    ensures ErrorOf(Parse(t, op)) == BarVerdict(t, op, i)
  {
    hide WellFormed, Lookup, Lower, LastBar, NamesSub, NoBar;
    AfterSign(op, i);
    LookupNames(t, op[1..i]);
    LookupNames(t, op[1..]);
    BarNoCommand(t, op[1..], i - 1);
  }

  lemma BarNoCommand(t: Table, s: string, i: nat)
    requires WellFormed(t) && i < |s| && s[i] == '|'
    ensures !NamesCommand(t, s)
  {
    assert Lower(s)[i] == '|';
    assert Lower(s) in t.commands ==> GoodName(Lower(s));
  }

  /** The error of a rule, from its letters. */
  lemma RuleVerdict(t: Table, op: string)
    requires WellFormed(t) && Signed(op)
    ensures Verdict(t, op, ErrorOf(Parse(t, op)))
  {
    hide WellFormed, Lookup, Lower, LastBar, NamesSub, NoBar, NamesCommand;
    LookupNames(t, op[1..]);
    NoBarInSign(op);
    assert |op| > 1 && op[1] == '@' ==> op[1..][1..] == op[2..];
    forall i: nat | LastBarAt(op, i) && op[0] == '+' && op[1] != '@'
      ensures ErrorOf(Parse(t, op)) == BarVerdict(t, op, i)
    {
      AfterSign(op, i);
      BarRule(t, op, i);
    }
  }

  // ----- accepted rules -----

  lemma LookupName(t: Table, s: string)
    ensures Lookup(t, s).Some? ==> Name(Lookup(t, s).value) == Lower(s)
  {
    hide Bar, Lower;
    if Bar(s) < |s| {
      LowerAround(s, Bar(s));
    }
  }

  lemma LowerCategory(name: string)
    requires name != [] && name[0] == '@'
    ensures Name(Category(Lower(name[1..]))) == Lower(name)
  {
    assert name == "@" + name[1..];
    LowerConcat("@", name[1..]);
    LowerSigns();
  }

  lemma LowerFirstArg(t: Table, name: string, i: nat)
    requires i < |name| && name[i] == '|' && Lookup(t, name[..i]).Some? && Lookup(t, name[..i]).value.Command?
    ensures Name(FirstArg(Lookup(t, name[..i]).value.base, name[i + 1..])) == Lower(name)
  {
    hide Lookup, Lower;
    LowerAround(name, i);
    LookupName(t, name[..i]);
    LookupOne(t, name[..i]);
  }

  /** A rule's name is its text in lower case, however it was written. */
  lemma ParseName(t: Table, op: string)
    requires IsRule(op) && Parse(t, op).Ok?
    ensures Name(Parse(t, op).rule.target) == Lower(op[1..])
  {
    hide Lookup, Lower, Name, NoBar, LastBar;
    var name := op[1..];
    LookupName(t, name);
    if name != [] && name[0] == '@' {
      LowerCategory(name);
    } else if op[0] == '+' && !NoBar(name) {
      var i := LastBar(name);
      var x := Lookup(t, name[..i]);
      LookupKnown(t, name[..i]);
      if x.Some? && x.value.Command? && !t.commands[x.value.base].container {
        LowerFirstArg(t, name, i);
      }
    }
  }

  lemma LookupOne(t: Table, s: string)
    ensures Lookup(t, s).Some? && Lookup(t, s).value.Command? ==> Name(Lookup(t, s).value) == Lookup(t, s).value.base
  {
  }

  lemma ParseSpells(t: Table, op: string)
    requires IsRule(op) && Parse(t, op).Ok?
    ensures Spells(t, op, Parse(t, op).rule)
  {
    hide Lookup, Lower, Name, NoBar, LastBar, Known;
    ParseKnown(t, op);
    ParseName(t, op);
    var name := op[1..];
    LookupKnown(t, name);
    if op[0] == '+' && !NoBar(name) {
      var i := LastBar(name);
      LookupKnown(t, name[..i]);
      assert op[|op| - |name[i + 1..]|..] == name[i + 1..];
    }
  }

  /** What follows the sign. */
  lemma LowerTail(op: string, sign: char, name: string)
    requires op != [] && op[0] == sign && sign in {'+', '-'} && Lower(op[1..]) == name && name != []
    ensures |op| > 1 && Lower(op) == [sign] + name && (op[1] == '@' <==> name[0] == '@')
    ensures name != "@all" ==> Signed(op)
  {
    assert Lower(op)[0] == sign && Lower(op)[1..] == Lower(op[1..]);
    assert Lower(op) == [sign] + name && Lower(op)[1..] == name;
    assert "+@all"[1..] == "@all" && "-@all"[1..] == "@all";
    assert "allcommands"[0] == 'a' && "nocommands"[0] == 'n';
  }

  lemma SpelledWord(t: Table, op: string, allow: bool, b: string)
    requires WellFormed(t) && Spells(t, op, Rule(allow, Command(b)))
    ensures Signed(op) && Parse(t, op) == Ok(Rule(allow, Command(b)))
  {
    hide Lookup, Lower, LastBar, WellFormed, NoBar, Signed;
    NameParts(t, Command(b));
    LowerTail(op, op[0], b);
    NoBarLower(op[1..]);
    LookupWord(t, op[1..]);
  }

  lemma SpelledCategory(t: Table, op: string, allow: bool, c: string)
    requires WellFormed(t) && Spells(t, op, Rule(allow, Category(c)))
    ensures Signed(op) && Parse(t, op) == Ok(Rule(allow, Category(c)))
  {
    hide Lookup, Lower, LastBar, NoBar, Signed;
    assert GoodName(c) && c != "all";
    assert ("@" + c)[1..] == c && "@all"[1..] == "all";
    LowerTail(op, op[0], "@" + c);
    LowerPart(op[1..], 1, |op| - 1);
    assert op[1..][1..] == op[1..][1..|op| - 1] && Lower(op[1..])[1..|op| - 1] == c;
    assert op[1..][0] == '@';
  }

  /** A name in two parts. */
  lemma SpelledParts(t: Table, op: string, b: string, rest: string)
    requires WellFormed(t) && op != [] && op[0] in {'+', '-'} && b in t.commands && NoBar(rest)
    requires Lower(op[1..]) == b + "|" + rest
    ensures Signed(op) && op[1] != '@' && !NoBar(op[1..]) && LastBar(op[1..]) == |b|
    ensures Lookup(t, op[1..][..|b|]) == Some(Command(b)) && |op| == |b| + 2 + |rest|
  {
    hide Lookup, Lower, LastBar, WellFormed, NoBar, Signed;
    NameParts(t, Command(b));
    PartsOf(Lower(op[1..]), b, rest);
    assert Lower(op[1..])[0] == b[0] != '@';
    LowerTail(op, op[0], Lower(op[1..]));
    BarsOfName(b, rest, op[1..]);
    BarAt(op[1..], |b|);
    OneLastBar(op[1..], |b|);
    LookupWord(t, op[1..][..|b|]);
  }

  lemma BarAt(s: string, i: nat)
    requires i == Bar(s) < |s|
    ensures s[i] == '|' && !NoBar(s)
  {
  }

  lemma SpelledSub(t: Table, op: string, allow: bool, b: string, m: string)
    requires WellFormed(t) && Spells(t, op, Rule(allow, Subcommand(b, m)))
    ensures Signed(op) && Parse(t, op) == Ok(Rule(allow, Subcommand(b, m)))
  {
    hide Lookup, Lower, LastBar, NoBar, Signed, IsPlain;
    assert GoodName(b) && GoodBase(t.commands[b]) && GoodName(m);
    hide WellFormed;
    SpelledParts(t, op, b, m);
    LookupSub(t, op[1..], b, m);
  }

  lemma SpelledArg(t: Table, op: string, b: string, a: string)
    requires WellFormed(t) && Spells(t, op, Rule(true, FirstArg(b, a)))
    ensures Signed(op) && Parse(t, op) == Ok(Rule(true, FirstArg(b, a)))
  {
    hide Lookup, Lower, LastBar, NoBar, Signed, WellFormed;
    LowerNoBar(a);
    SpelledParts(t, op, b, Lower(a));
    assert op[1..][|b| + 1..] == op[|op| - |a|..];
  }

  /** An operation spells at most one rule, and it is the one that is applied. */
  lemma SpelledIsParsed(t: Table, op: string, r: Rule)
    requires WellFormed(t) && Spells(t, op, r)
    ensures Signed(op) && Parse(t, op) == Ok(r)
  {
    hide Parse, Signed, WellFormed, Lower, Name;
    match r.target {
      case Command(b) => SpelledWord(t, op, r.allow, b);
      case Category(c) => SpelledCategory(t, op, r.allow, c);
      case Subcommand(b, m) => SpelledSub(t, op, r.allow, b, m);
      case FirstArg(b, a) => SpelledArg(t, op, b, a);
    }
  }

  // ----- all operations -----

  /** The words begin with different signs and letters. */
  lemma FirstLetters(op: string)
    ensures op == [] ==> Lower(op) !in ALL_WORDS + NONE_WORDS + KEY_WORDS
    ensures op != [] && op[0] in {'~', '%', '&'} ==> Lower(op) !in ALL_WORDS + NONE_WORDS
    ensures op != [] && op[0] in {'+', '-'} ==> Lower(op) !in KEY_WORDS
    ensures Lower(op) !in ALL_WORDS * NONE_WORDS + ALL_WORDS * KEY_WORDS + NONE_WORDS * KEY_WORDS
  {
    if op != [] {
      assert Lower(op)[0] == LowerChar(op[0]);
    }
    assert "allcommands"[0] == 'a' && "nocommands"[0] == 'n' && "+@all"[0] == '+' && "-@all"[0] == '-';
    assert "allkeys"[0] == 'a' && "~*"[0] == '~' && "resetkeys"[0] == 'r' && "&*"[0] == '&';
    assert "allcommands"[3] == 'c' && "allkeys"[3] == 'k' && |"allchannels"| == |"allcommands"|;
    assert "allcommands"[4] == 'o' && "allchannels"[4] == 'h' && "resetchannels"[0] == 'r';
  }

  /** Every operation is a word, a pattern, a rule, or unknown, and only one of these. */
  lemma MeaningOf(t: Table, op: string, pattern: Option<Errno>)
    ensures Lower(op) in ALL_WORDS ==> Meaning(t, op, pattern) == AllowAll
    ensures Lower(op) in NONE_WORDS ==> Meaning(t, op, pattern) == AllowNone
    ensures Lower(op) in KEY_WORDS ==> Meaning(t, op, pattern) == Nothing
    ensures Marked(op) ==> Meaning(t, op, pattern) == if pattern.Some? then Refused(pattern.value) else Nothing
    ensures Unknown(op) ==> Meaning(t, op, pattern) == Refused(EINVAL)
    ensures Signed(op) ==> IsRule(op) && Meaning(t, op, pattern) == RuleEffect(t, op)
  {
    hide RuleEffect, Lower;
    FirstLetters(op);
  }
}
