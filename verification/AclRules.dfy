/** acl.c: the text of the command rules, pruned in place. */
module AclRules {
  import opened Sds
  import opened AclTable
  import opened AclReplay

  /** Something between two blanks. */
  predicate Word(s: string) {
    s != [] && forall i :: 0 <= i < |s| ==> s[i] != ' '
  }

  predicate Words(tokens: seq<string>) {
    forall i :: 0 <= i < |tokens| ==> Word(tokens[i])
  }

  /** The tokens whose name, behind the sign, is not covered. */
  function Keep(tokens: seq<string>, name: string): seq<string>
    requires Words(tokens)
  {
    if tokens == [] then []
    else
      var n := |tokens| - 1;
      assert Word(tokens[n]);
      if Covers(name, tokens[n][1..]) then Keep(tokens[..n], name) else Keep(tokens[..n], name) + [tokens[n]]
  }

  // ----- where a token stands in the text -----

  function Before(done: seq<string>): string {
    if done == [] then "" else Join(done) + " "
  }

  function Behind(rest: seq<string>): string {
    if rest == [] then "" else " " + Join(rest)
  }

  lemma {:induction false} JoinSplit(a: seq<string>, b: seq<string>)
    requires a != [] && b != []
    ensures Join(a + b) == Join(a) + (" " + Join(b))
    decreases |a|
  {
    if |a| == 1 {
      assert (a + b)[1..] == b;
      assert a[0] + [' '] + Join(b) == Join(a) + (" " + Join(b));
    } else {
      assert (a + b)[1..] == a[1..] + b;
      JoinSplit(a[1..], b);
      assert a[0] + [' '] + (Join(a[1..]) + (" " + Join(b))) == a[0] + [' '] + Join(a[1..]) + (" " + Join(b));
    }
  }

  lemma JoinAround(done: seq<string>, t: string, rest: seq<string>)
    ensures Join(done + ([t] + rest)) == Before(done) + (t + Behind(rest))
  {
    hide Join;
    JoinOne(t);
    if rest != [] {
      JoinSplit([t], rest);
    } else {
      assert [t] + rest == [t];
    }
    assert Join([t] + rest) == t + Behind(rest);
    if done == [] {
      assert done + ([t] + rest) == [t] + rest && "" + (t + Behind(rest)) == t + Behind(rest);
    } else {
      JoinSplit(done, [t] + rest);
      assert Join(done) + (" " + (t + Behind(rest))) == Join(done) + " " + (t + Behind(rest));
    }
  }

  lemma JoinOne(t: string)
    ensures Join([t]) == t && Join([]) == []
  {
  }

  lemma BeforeNext(done: seq<string>, t: string)
    ensures Before(done + [t]) == Before(done) + (t + " ")
  {
    hide Join;
    JoinOne(t);
    if done == [] {
      assert done + [t] == [t] && "" + (t + " ") == t + " ";
    } else {
      JoinSplit(done, [t]);
      assert Join(done) + (" " + t) + " " == Join(done) + " " + (t + " ");
    }
  }

  /** strchr for a blank, or the end. */
  function Blank(s: string, from: nat): (i: nat)
    requires from <= |s|
    ensures from <= i <= |s| && (forall k :: from <= k < i ==> s[k] != ' ') && (i < |s| ==> s[i] == ' ')
    decreases |s| - from
  {
    if from == |s| || s[from] == ' ' then from else Blank(s, from + 1)
  }

  /** The comparison of an existing rule with the new one. */
  lemma CoversIs(name: string, rule: string)
    ensures var m := if |rule| < |name| then |rule| else |name|;
            Covers(name, rule)
            <==> rule[..m] == name[..m] && (|rule| == |name| || (|rule| > |name| && rule[|name|] == '|'))
  {
    if |rule| == |name| {
      assert rule[..|rule|] == rule && name[..|name|] == name;
    } else if |rule| > |name| {
      assert name[..|name|] == name;
    }
  }

  /** The rules of any text, one after the other: a sign, and everything up to the next blank.
      What is covered goes, with the blank behind it, or for the last one with the blank before
      it. */
  function Removed(kept: string, rest: string, name: string): string
    decreases |rest|
  {
    if rest == [] then kept
    else
      var e := Blank(rest, 1);
      var covered := Covers(name, rest[1..e]);
      if e == |rest| then if !covered then kept + rest else if kept == [] then [] else kept[..|kept| - 1]
      else Removed(if covered then kept else kept + rest[..e + 1], rest[e + 1..], name)
  }

  /** ACLSelectorRemoveCommandRule, splicing inside the text. */
  method RemoveCommandRule(rules: string, newRule: string) returns (r: string)
    ensures r == Removed([], rules, newRule)
  {
    hide Covers, Blank;
    r := rules;
    var p: nat := 0;
    assert r[..0] == [] && r[0..] == r;
    while p < |r|
      invariant p <= |r| && Removed(r[..p], r[p..], newRule) == Removed([], rules, newRule)
      decreases |r| - p
    {
      r, p := RemoveOne(r, p, newRule);
    }
    assert r[..p] == r;
  }

  /** One round of the loop: the rule at `start` goes, or is stepped over. */
  method RemoveOne(rules: string, start: nat, newRule: string) returns (r: string, p: nat)
    requires start < |rules|
    ensures p <= |r| && |r| - p < |rules| - start
    ensures Removed(r[..p], r[p..], newRule) == Removed(rules[..start], rules[start..], newRule)
  {
    hide Covers, Blank;
    r := rules;
    var copyPosition, existing := start, start + 1;
    var ruleEnd := Blank(r, existing);
    BlankFrom(r, start);
    if ruleEnd == |r| {
      if copyPosition != 0 {
        copyPosition := copyPosition - 1;
      }
    }
    var copyEnd := ruleEnd;
    if copyEnd < |r| {
      copyEnd := copyEnd + 1;
    }
    var matches := Compare(r, existing, ruleEnd, newRule);
    ghost var kept, rest, e := rules[..start], rules[start..], ruleEnd - start;
    assert rest[1..e] == rules[existing..ruleEnd];
    if matches {
      r := r[..copyPosition] + r[copyEnd..];
      p := copyPosition;
      assert r[..p] == rules[..copyPosition] && r[p..] == rules[copyEnd..];
      if ruleEnd == |rules| {
        assert r[p..] == [];
        assert copyPosition > 0 ==> kept[..|kept| - 1] == rules[..copyPosition];
      } else {
        assert rest[e + 1..] == rules[copyEnd..];
      }
    } else {
      p := copyEnd;
      if ruleEnd == |rules| {
        assert r[p..] == [] && r[..p] == kept + rest;
      } else {
        assert rest[e + 1..] == r[p..] && r[..p] == kept + rest[..e + 1];
      }
    }
  }

  lemma BlankFrom(s: string, start: nat)
    requires start < |s|
    ensures Blank(s[start..], 1) == Blank(s, start + 1) - start
  {
    hide Blank;
    var rest := s[start..];
    var e := Blank(rest, 1);
    var f := Blank(s, start + 1) - start;
    assert forall k :: 0 <= k < |rest| ==> rest[k] == s[start + k];
    assert forall k :: 1 <= k < f ==> rest[k] != ' ';
    assert forall k :: start < k < start + e ==> s[k] == rest[k - start];
  }

  /** memcmp over the shorter length, and the test behind it. */
  method Compare(r: string, existing: nat, ruleEnd: nat, newRule: string) returns (matches: bool)
    requires existing <= ruleEnd <= |r|
    ensures matches == Covers(newRule, r[existing..ruleEnd])
  {
    hide Covers;
    var existingLen := ruleEnd - existing;
    var m := if existingLen < |newRule| then existingLen else |newRule|;
    CoversIs(newRule, r[existing..ruleEnd]);
    assert r[existing..ruleEnd][..m] == r[existing..existing + m];
    matches := r[existing..existing + m] == newRule[..m]
               && (existingLen == |newRule| || (existingLen > |newRule| && r[existing + |newRule|] == '|'));
  }

  // ----- in a text of words the splices are a filter -----

  lemma BlankBehind(t: string, behind: string)
    requires Word(t) && (behind == "" || behind[0] == ' ')
    ensures Blank(t + behind, 1) == |t|
  {
    hide Blank;
    var r := t + behind;
    assert forall k :: 0 <= k < |t| ==> r[k] == t[k];
    assert behind != "" ==> r[|t|] == ' ';
  }

  /** One word more at the front. */
  lemma KeepFirst(t: string, rest: seq<string>, name: string)
    requires Word(t) && Words(rest)
    ensures Words([t] + rest)
    ensures Keep([t] + rest, name) == (if Covers(name, t[1..]) then [] else [t]) + Keep(rest, name)
    decreases |rest|
  {
    hide Covers;
    var all := [t] + rest;
    forall i | 0 <= i < |all|
      ensures Word(all[i])
    {
      if i > 0 {
        assert all[i] == rest[i - 1];
      }
    }
    if rest == [] {
      assert all == [t] && all[..0] == [] && Keep([], name) == [];
    } else {
      var n := |rest| - 1;
      KeepFirst(t, rest[..n], name);
      assert all[..|all| - 1] == [t] + rest[..n] && all[|all| - 1] == rest[n];
    }
  }

  lemma RemovedLast(done: seq<string>, t: string, name: string)
    requires Word(t)
    ensures Removed(Before(done), t, name) == Join(done + if Covers(name, t[1..]) then [] else [t])
  {
    hide Covers, Blank, Join;
    BlankBehind(t, "");
    assert t + "" == t && t[1..|t|] == t[1..];
    if Covers(name, t[1..]) {
      assert done + [] == done;
      JoinOne("");
      if done != [] {
        assert Before(done)[..|Before(done)| - 1] == Join(done);
      }
    } else {
      JoinAround(done, t, []);
      assert t + "" == t && done + ([t] + []) == done + [t];
    }
  }

  /** A text of words without its covered ones, as the splices leave it. */
  lemma {:induction false} RemovedWords(done: seq<string>, tokens: seq<string>, name: string)
    requires Words(tokens) && tokens != []
    ensures Removed(Before(done), Join(tokens), name) == Join(done + Keep(tokens, name))
    decreases |tokens|
  {
    hide Covers, Blank, Join, Removed, Before, Keep;
    var t, rest := tokens[0], tokens[1..];
    assert tokens == [t] + rest && Word(t) && Words(rest);
    KeepFirst(t, rest, name);
    if rest == [] {
      JoinOne(t);
      RemovedLast(done, t, name);
      NothingKept(name);
      assert tokens == [t];
    } else {
      JoinSplit([t], rest);
      JoinOne(t);
      RemovedFirst(Before(done), t, Join(rest), name);
      if Covers(name, t[1..]) {
        RemovedWords(done, rest, name);
        assert [] + Keep(rest, name) == Keep(rest, name);
      } else {
        BeforeNext(done, t);
        RemovedWords(done + [t], rest, name);
        assert done + [t] + Keep(rest, name) == done + ([t] + Keep(rest, name));
      }
    }
  }

  lemma NothingKept(name: string)
    ensures Keep([], name) == []
  {
  }

  lemma RemovedFirst(kept: string, t: string, rest: string, name: string)
    requires Word(t)
    ensures Removed(kept, t + (" " + rest), name)
            == Removed(if Covers(name, t[1..]) then kept else kept + (t + " "), rest, name)
  {
    hide Covers, Blank;
    var text := t + (" " + rest);
    BlankBehind(t, " " + rest);
    assert text[1..|t|] == t[1..] && text[|t| + 1..] == rest && text[..|t| + 1] == t + " ";
  }
}
