/** acl.c: a selector's command bitmap and first-argument table, changed in place. */
module AclSelector {
  import opened Letters
  import opened AclTable
  import opened AclReplay

  /** allowed_commands, allowed_firstargs and the ALLCOMMANDS flag. */
  datatype Perms = Perms(allowed: seq<bool>, firstArgs: map<nat, seq<string>>, allCommands: bool)

  /** memset of the bitmap. */
  function AllBits(value: bool): (bits: seq<bool>)
    ensures |bits| == BITS && forall i :: 0 <= i < BITS ==> bits[i] == value
  {
    seq(BITS, _ => value)
  }

  const NOTHING := Perms(AllBits(false), map[], false)
  const EVERYTHING := Perms(AllBits(true), map[], true)

  predicate Listed(args: seq<string>, arg: string) {
    exists i :: 0 <= i < |args| && Lower(args[i]) == arg
  }

  predicate Holds(p: Perms, cell: Cell) {
    match cell
    case Bit(id) => id < |p.allowed| && p.allowed[id]
    case Arg(id, a) => id in p.firstArgs && Listed(p.firstArgs[id], a)
  }

  /** Some bits set to a value and the first arguments of some commands forgotten. */
  function Put(p: Perms, ids: set<nat>, value: bool, resets: set<nat>): (q: Perms)
    ensures |q.allowed| == |p.allowed|
  {
    Perms(seq(|p.allowed|, i requires 0 <= i < |p.allowed| => if i in ids then value else p.allowed[i]),
          p.firstArgs - resets,
          p.allCommands && (value || forall i :: 0 <= i < |p.allowed| ==> i !in ids))
  }

  lemma PutHolds(p: Perms, ids: set<nat>, value: bool, resets: set<nat>, cell: Cell)
    requires cell.id < |p.allowed|
    ensures Holds(Put(p, ids, value, resets), cell)
            == match cell
               case Bit(id) => if id in ids then value else Holds(p, cell)
               case Arg(id, _) => id !in resets && Holds(p, cell)
  {
  }

  lemma PutTwice(p: Perms, a: set<nat>, b: set<nat>, value: bool, r: set<nat>, s: set<nat>)
    ensures Put(Put(p, a, value, r), b, value, s) == Put(p, a + b, value, r + s)
  {
    hide Put;
    PutIs(p, a, value, r);
    PutIs(Put(p, a, value, r), b, value, s);
    PutIs(p, a + b, value, r + s);
    assert Put(Put(p, a, value, r), b, value, s).allowed == Put(p, a + b, value, r + s).allowed;
    assert p.firstArgs - r - s == p.firstArgs - (r + s);
  }

  lemma PutIs(p: Perms, ids: set<nat>, value: bool, resets: set<nat>)
    ensures var q := Put(p, ids, value, resets);
            && |q.allowed| == |p.allowed|
            && (forall i :: 0 <= i < |p.allowed| ==> q.allowed[i] == if i in ids then value else p.allowed[i])
            && q.firstArgs == p.firstArgs - resets
            && (q.allCommands <==> p.allCommands && (value || forall i :: 0 <= i < |p.allowed| ==> i !in ids))
  {
  }

  lemma PutNothing(p: Perms, value: bool)
    ensures Put(p, {}, value, {}) == p
  {
    assert Put(p, {}, value, {}).allowed == p.allowed;
    assert p.firstArgs - {} == p.firstArgs;
  }

  // ----- the numbers a rule is about -----

  function SubIds(subs: map<string, Sub>): set<nat> {
    set m | m in subs :: subs[m].id
  }

  function CategorySubIds(subs: map<string, Sub>, c: string): set<nat> {
    set m | m in subs && c in subs[m].categories :: subs[m].id
  }

  function CategoryIds(b: Base, c: string): set<nat> {
    (if c in b.categories then {b.id} + SubIds(b.subs) else {}) + CategorySubIds(b.subs, c)
  }

  function CategoryResets(b: Base, c: string): set<nat> {
    (if c in b.categories then {b.id} else {}) + CategorySubIds(b.subs, c)
  }

  function AllCategoryIds(commands: map<string, Base>, names: set<string>, c: string): set<nat> {
    set n, i | n in names && n in commands && i in CategoryIds(commands[n], c) :: i
  }

  function AllCategoryResets(commands: map<string, Base>, names: set<string>, c: string): set<nat> {
    set n, i | n in names && n in commands && i in CategoryResets(commands[n], c) :: i
  }

  /** The subcommands already done. */
  function Seen(subs: map<string, Sub>, todo: set<string>): map<string, Sub> {
    map x | x in subs && x !in todo :: subs[x]
  }

  lemma SeenAll(subs: map<string, Sub>)
    ensures Seen(subs, {}) == subs && Seen(subs, subs.Keys) == map[]
  {
  }

  lemma NoIds(c: string)
    ensures SubIds(map[]) == {} && CategorySubIds(map[], c) == {}
  {
  }

  class Selector {
    var allowed: seq<bool>
    var firstArgs: map<nat, seq<string>>
    var allCommands: bool
    var rules: string     // command_rules
    ghost var log: Log    // the same, as a list

    function View(): Perms
      reads this
    {
      Perms(allowed, firstArgs, allCommands)
    }

    /** A new selector allows nothing. */
    constructor ()
      ensures View() == NOTHING && rules == "" && log == []
    {
      allowed, firstArgs, allCommands := AllBits(false), map[], false;
      rules, log := "", [];
    }

    /** ACLSetSelectorCommandBit. */
    method SetCommandBit(id: nat, value: bool)
      requires |allowed| == BITS
      modifies `allowed, `firstArgs, `allCommands
      ensures View() == Put(old(View()), {id}, value, {})
    {
      ghost var p := View();
      PutIs(p, {id}, value, {});
      assert firstArgs - {} == firstArgs;
      if id >= BITS {
        assert allowed == Put(p, {id}, value, {}).allowed;
        return;
      }
      if value {
        allowed := allowed[id := true];
      } else {
        allowed := allowed[id := false];
        allCommands := false;
      }
      assert allowed == Put(p, {id}, value, {}).allowed;
    }

    /** ACLResetFirstArgsForCommand. */
    method ResetFirstArgsForCommand(id: nat, ghost value: bool)
      modifies `firstArgs
      ensures View() == Put(old(View()), {}, value, {id})
    {
      ghost var p := View();
      PutIs(p, {}, value, {id});
      firstArgs := firstArgs - {id};
      assert allowed == Put(p, {}, value, {id}).allowed;
    }

    /** ACLChangeSelectorPerm: a container takes its subcommands with it. */
    method ChangePerm(id: nat, subs: map<string, Sub>, allow: bool)
      requires |allowed| == BITS
      modifies `allowed, `firstArgs, `allCommands
      ensures View() == Put(old(View()), {id} + SubIds(subs), allow, {id})
    {
      hide Put, Seen, SubIds;
      SeenAll(subs);
      NoIds("");
      ghost var p := View();
      SetCommandBit(id, allow);
      ResetFirstArgsForCommand(id, allow);
      PutTwice(p, {id}, {}, allow, {}, {id});
      var todo := subs.Keys;
      ghost var ids := {id};
      assert {id} + {} == {id} && {} + {id} == {id};
      while todo != {}
        invariant todo <= subs.Keys && |allowed| == BITS
        invariant ids == {id} + SubIds(Seen(subs, todo))
        invariant View() == Put(p, ids, allow, {id})
        decreases |todo|
      {
        var m :| m in todo;
        SetCommandBit(subs[m].id, allow);
        PutTwice(p, ids, {subs[m].id}, allow, {id}, {});
        SubIdsMore(subs, todo, m);
        assert {id} + {} == {id};
        ids := ids + {subs[m].id};
        todo := todo - {m};
      }
    }

    /** ACLSetSelectorCommandBitsForCategory on the subcommands of a container. */
    method SetBitsForSubs(subs: map<string, Sub>, c: string, value: bool)
      requires |allowed| == BITS
      modifies `allowed, `firstArgs, `allCommands
      ensures View() == Put(old(View()), CategorySubIds(subs, c), value, CategorySubIds(subs, c))
    {
      hide Put, Seen, SubIds, CategorySubIds;
      SeenAll(subs);
      NoIds(c);
      ghost var p := View();
      PutNothing(p, value);
      ghost var ids := {};
      var todo := subs.Keys;
      while todo != {}
        invariant todo <= subs.Keys && |allowed| == BITS
        invariant ids == CategorySubIds(Seen(subs, todo), c)
        invariant View() == Put(p, ids, value, ids)
        decreases |todo|
      {
        var m :| m in todo;
        CategorySubIdsMore(subs, todo, m, c);
        if c in subs[m].categories {
          ChangePerm(subs[m].id, map[], value);
          ghost var one := {subs[m].id};
          assert one + {} == one;
          PutTwice(p, ids, one, value, ids, one);
          ids := ids + one;
        } else {
          assert ids + {} == ids;
        }
        todo := todo - {m};
      }
    }

    /** One command of ACLSetSelectorCommandBitsForCategory, with its subcommands. */
    method SetBitsForCommand(b: Base, c: string, value: bool)
      requires |allowed| == BITS
      modifies `allowed, `firstArgs, `allCommands
      ensures View() == Put(old(View()), CategoryIds(b, c), value, CategoryResets(b, c))
    {
      hide Put, SubIds, CategorySubIds;
      ghost var p := View();
      ghost var ids, resets, subs := {}, {}, CategorySubIds(b.subs, c);
      PutNothing(p, value);
      if c in b.categories {
        ChangePerm(b.id, b.subs, value);
        ids, resets := {b.id} + SubIds(b.subs), {b.id};
      }
      SetBitsForSubs(b.subs, c, value);
      PutTwice(p, ids, subs, value, resets, subs);
    }

    /** ACLSetSelectorCommandBitsForCategory. */
    method SetBitsForCategory(commands: map<string, Base>, c: string, value: bool)
      requires |allowed| == BITS
      modifies `allowed, `firstArgs, `allCommands
      ensures View() == Put(old(View()), AllCategoryIds(commands, commands.Keys, c), value,
                            AllCategoryResets(commands, commands.Keys, c))
    {
      hide Put, CategoryIds, CategoryResets;
      ghost var p := View();
      PutNothing(p, value);
      var todo := commands.Keys;
      ghost var done: set<string> := {};
      assert AllCategoryIds(commands, {}, c) == {} && AllCategoryResets(commands, {}, c) == {};
      while todo != {}
        invariant todo <= commands.Keys && done == commands.Keys - todo && |allowed| == BITS
        invariant View() == Put(p, AllCategoryIds(commands, done, c), value, AllCategoryResets(commands, done, c))
        decreases |todo|
      {
        var n :| n in todo;
        SetBitsForCommand(commands[n], c, value);
        PutTwice(p, AllCategoryIds(commands, done, c), CategoryIds(commands[n], c), value,
                 AllCategoryResets(commands, done, c), CategoryResets(commands[n], c));
        CategoryMore(commands, done, n, c);
        done, todo := done + {n}, todo - {n};
      }
      assert done == commands.Keys;
    }

    /** ACLAddAllowedFirstArg: not if it is there, whatever its case. */
    method AddAllowedFirstArg(id: nat, arg: string)
      modifies `firstArgs
      ensures firstArgs == Added(old(firstArgs), id, arg)
    {
      var items := if id in firstArgs then firstArgs[id] else [];
      var k := 0;
      while k < |items|
        invariant k <= |items| && forall i :: 0 <= i < k ==> Lower(items[i]) != Lower(arg)
      {
        if Lower(items[k]) == Lower(arg) {
          return;
        }
        k := k + 1;
      }
      firstArgs := firstArgs[id := items + [arg]];
    }
  }

  function Added(firstArgs: map<nat, seq<string>>, id: nat, arg: string): map<nat, seq<string>> {
    var items := if id in firstArgs then firstArgs[id] else [];
    if Listed(items, Lower(arg)) then firstArgs else firstArgs[id := items + [arg]]
  }

  lemma AddedHolds(p: Perms, id: nat, arg: string, cell: Cell)
    ensures Holds(p.(firstArgs := Added(p.firstArgs, id, arg)), cell) <==> cell == Arg(id, Lower(arg)) || Holds(p, cell)
  {
    var items := if id in p.firstArgs then p.firstArgs[id] else [];
    var more := items + [arg];
    assert Lower(more[|items|]) == Lower(arg);
    if cell.Arg? && Listed(items, cell.arg) {
      var i :| 0 <= i < |items| && Lower(items[i]) == cell.arg;
      assert Lower(more[i]) == cell.arg;
    }
    if cell.Arg? && Listed(more, cell.arg) && cell.arg != Lower(arg) {
      var i :| 0 <= i < |more| && Lower(more[i]) == cell.arg;
      assert Lower(items[i]) == cell.arg;
    }
  }

  lemma SubIdsMore(subs: map<string, Sub>, todo: set<string>, m: string)
    requires m in todo && todo <= subs.Keys
    ensures SubIds(Seen(subs, todo - {m}))
            == SubIds(Seen(subs, todo)) + {subs[m].id}
  {
    var a := Seen(subs, todo);
    var b := Seen(subs, todo - {m});
    forall i | i in SubIds(b)
      ensures i in SubIds(a) + {subs[m].id}
    {
      var x :| x in b && b[x].id == i;
      assert x == m || x in a;
    }
    forall i | i in SubIds(a) + {subs[m].id}
      ensures i in SubIds(b)
    {
      if i == subs[m].id {
        assert m in b;
      } else {
        var x :| x in a && a[x].id == i;
        assert x in b;
      }
    }
  }

  lemma CategorySubIdsMore(subs: map<string, Sub>, todo: set<string>, m: string, c: string)
    requires m in todo && todo <= subs.Keys
    ensures CategorySubIds(Seen(subs, todo - {m}), c)
            == CategorySubIds(Seen(subs, todo), c)
               + if c in subs[m].categories then {subs[m].id} else {}
  {
    var a := Seen(subs, todo);
    var b := Seen(subs, todo - {m});
    var one := if c in subs[m].categories then {subs[m].id} else {};
    forall i | i in CategorySubIds(b, c)
      ensures i in CategorySubIds(a, c) + one
    {
      var x :| x in b && c in b[x].categories && b[x].id == i;
      assert x == m || x in a;
    }
    forall i | i in CategorySubIds(a, c) + one
      ensures i in CategorySubIds(b, c)
    {
      if i in one {
        assert m in b;
      } else {
        var x :| x in a && c in a[x].categories && a[x].id == i;
        assert x in b;
      }
    }
  }

  lemma CategoryMore(commands: map<string, Base>, done: set<string>, n: string, c: string)
    requires n in commands
    ensures AllCategoryIds(commands, done + {n}, c) == AllCategoryIds(commands, done, c) + CategoryIds(commands[n], c)
    ensures AllCategoryResets(commands, done + {n}, c)
            == AllCategoryResets(commands, done, c) + CategoryResets(commands[n], c)
  {
    hide CategoryIds, CategoryResets;
  }
}
