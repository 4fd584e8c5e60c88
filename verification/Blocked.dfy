/** blocked.c: clients blocked on keys, and waking them.

    Re-running a client's command is a parameter: it may signal keys and block any clients that
    are not blocked, its own among them.  Timeouts and replies are left out.
  */
module Blocked {
  import opened Options
  import opened BlockedIndex

  datatype ObjType = OString | OList | OSet | OZset | OHash | OModule | OStream

  /** getBlockedTypeByType. */
  function BlockTypeOf(t: ObjType): BlockType {
    match t
    case OList => BList
    case OZset => BZset
    case OModule => BModule
    case OStream => BStream
    case _ => BNone
  }

  predicate OnKeys(t: BlockType) {
    t.BList? || t.BZset? || t.BStream? || t.BModule?
  }

  /** What re-running a client's command does: it signals keys and blocks clients on keys, each
      unless it is blocked already. */
  datatype Signal = Signal(key: Key, objType: ObjType, deleted: bool)
  datatype Block = Block(btype: BlockType, keys: seq<Key>, nokey: bool)
  datatype Outcome = Outcome(signals: seq<Signal>, blocks: seq<(nat, Block)>)

  predicate BlocksOk(blocks: seq<(nat, Block)>) {
    forall i :: 0 <= i < |blocks| ==> OnKeys(blocks[i].1.btype)
  }

  predicate OutcomeOk(o: Outcome) {
    BlocksOk(o.blocks)
  }

  /** The first of the blocks that is about a client. */
  function FirstFor(blocks: seq<(nat, Block)>, c: nat): Option<Block>
    decreases |blocks|
  {
    if blocks == [] then None
    else
      var n := |blocks| - 1;
      var first := FirstFor(blocks[..n], c);
      if first.Some? then first else if blocks[n].0 == c then Some(blocks[n].1) else None
  }

  predicate Free(clients: Clients, c: nat) {
    c in clients && !clients[c].blocked
  }

  /** The clients that come to the end of a key's list. */
  function Newcomers(clients: Clients, blocks: seq<(nat, Block)>, k: Key): seq<nat>
    decreases |blocks|
  {
    if blocks == [] then []
    else
      var n := |blocks| - 1;
      var (c, b) := blocks[n];
      Newcomers(clients, blocks[..n], k)
      + if Free(clients, c) && FirstFor(blocks[..n], c).None? && k in b.keys then [c] else []
  }

  /** A client that was in state `x` and is now blocked on keys. */
  ghost predicate BlockedFor(c: Client, b: Block, x: Client) {
    && c.blocked && c.btype == b.btype && c.nokey == b.nokey && c.queued == x.queued
    && c.pending == (x.pending || b.btype != BModule)
    && forall k :: k in c.keys <==> k in b.keys
  }

  /** A client in state `x` whose command has run again: blocked again, or in the queue. */
  ghost predicate RanAgain(c: Client, again: Option<Block>, x: Client) {
    match again
    case Some(b) => BlockedFor(c, b, x.(pending := false))
    case None => c == Client(false, BNone, map[], false, false, true)
  }

  /** A client in state `x` after some blocks. */
  ghost predicate BlockedBy(c: Client, blocks: seq<(nat, Block)>, id: nat, x: Client) {
    if x.blocked || FirstFor(blocks, id).None? then c == x else BlockedFor(c, FirstFor(blocks, id).value, x)
  }

  /** What a visit to a blocked client finds: the key's object, and what the command would do. */
  datatype Visit = Visit(found: Option<ObjType>, outcome: Outcome)

  const NOTHING := Visit(None, Outcome([], []))

  ghost predicate ScriptOk(script: seq<Visit>) {
    forall i :: 0 <= i < |script| ==> OutcomeOk(script[i].outcome)
  }

  /** The clients blocked for a reason. */
  function BlockedAs(clients: Clients, t: BlockType): set<nat> {
    set c | c in clients && clients[c].blocked && clients[c].btype == t
  }

  ghost predicate TypesOk(clients: Clients, byType: map<BlockType, int>) {
    forall t: BlockType :: t in byType && byType[t] == |BlockedAs(clients, t)|
  }

  predicate ClientOk(c: Client) {
    && (c.blocked ==> c.btype != BNone)
    && (!c.blocked || !OnKeys(c.btype) ==> c.keys == map[] && !c.nokey)
  }

  ghost predicate ClientsOk(clients: Clients) {
    forall c :: c in clients ==> ClientOk(clients[c])
  }

  ghost predicate NoDuplicates<T(!new)>(s: seq<T>) {
    forall i, j :: 0 <= i < j < |s| ==> s[i] != s[j]
  }

  /** The ready list holds each signalled key once. */
  ghost predicate ReadyOk(ready: set<Key>, list: seq<Key>) {
    NoDuplicates(list) && forall k :: k in ready <==> k in list
  }

  ghost predicate QueueOk(clients: Clients, unblocked: seq<nat>) {
    NoDuplicates(unblocked) && forall c :: c in unblocked <==> c in clients && clients[c].queued
  }

  ghost predicate NodesBelow(lists: Lists, n: nat) {
    forall k, i :: 0 <= i < |Listed(lists, k)| ==> Listed(lists, k)[i].node < n
  }

  /** Lists, counts and dictionaries agree. */
  ghost predicate IndexOk(lists: Lists, counts: map<Key, nat>, clients: Clients, n: nat) {
    Indexed(lists, clients) && Counted(lists, counts, Nokey(clients)) && NodesBelow(lists, n)
  }

  // ----- values the methods work on -----

  /** One key released, given the client's effective dictionary. */
  lemma ReleaseOk(lists: Lists, counts: map<Key, nat>, clients: Clients, n: nat, c: nat, k: Key)
    requires IndexOk(lists, counts, clients, n) && c in clients && k in clients[c].keys
    ensures k in lists && Unlink(lists[k], clients[c].keys[k]) == Drop(lists[k], c)
    ensures clients[c].nokey ==> k in counts && counts[k] > 0
    ensures IndexOk(Released(lists, k, c), Uncounted(counts, k, clients[c].nokey, Drop(lists[k], c) == []),
                    WithKeys(clients, c, clients[c].keys - {k}), n)
  {
    hide Indexed, Counted, Drop, NokeyCount, Released, Unlink, ListOk, NodesBelow, DistinctClients, DistinctNodes,
      Uncounted;
    var i := Place(lists, clients, c, k);
    ReleaseKeeps(lists, clients, k, c);
    CountedRelease(lists, counts, Nokey(clients), k, i);
    assert Nokey(WithKeys(clients, c, clients[c].keys - {k})) == Nokey(clients);
    ReleasedBelow(lists, k, c, n);
  }

  /** Where a client stands in the list of one of its keys. */
  lemma Place(lists: Lists, clients: Clients, c: nat, k: Key) returns (i: nat)
    requires Indexed(lists, clients) && c in clients && k in clients[c].keys
    ensures k in lists && i < |lists[k]| && lists[k][i] == Entry(clients[c].keys[k], c) && DistinctClients(lists[k])
    ensures Unlink(lists[k], clients[c].keys[k]) == Drop(lists[k], c)
  {
    hide Drop, Unlink;
    ExactlyOnce(lists, clients, c, k);
    var e := Entry(Keys(clients, c)[k], c);
    assert e in Listed(lists, k);
    i :| 0 <= i < |Listed(lists, k)| && Listed(lists, k)[i] == e;
    assert ListOk(Listed(lists, k), k, clients);
    UnlinkDrops(lists[k], i);
  }

  lemma ReleasedBelow(lists: Lists, k: Key, c: nat, n: nat)
    requires NodesBelow(lists, n)
    ensures NodesBelow(Released(lists, k, c), n)
  {
    hide Drop, Released;
    forall other, i | 0 <= i < |Listed(Released(lists, k, c), other)|
      ensures Listed(Released(lists, k, c), other)[i].node < n
    {
      ListedReleased(lists, k, c, other);
      DropContents(Listed(lists, k), c);
      assert Listed(Released(lists, k, c), other)[i] in Listed(lists, other);
    }
  }

  /** One key added. */
  lemma AddOk(lists: Lists, counts: map<Key, nat>, clients: Clients, n: nat, c: nat, k: Key)
    requires IndexOk(lists, counts, clients, n) && c in clients && k !in clients[c].keys
    ensures IndexOk(Added(lists, k, Entry(n, c)),
                    if clients[c].nokey then counts[k := Count(counts, k) + 1] else counts,
                    WithKeys(clients, c, clients[c].keys[k := n]), n + 1)
  {
    hide Indexed, Counted, NokeyCount, Added, ListOk;
    var e := Entry(n, c);
    var after := if clients[c].nokey then counts[k := Count(counts, k) + 1] else counts;
    AddKeeps(lists, clients, k, e);
    CountedAdd(lists, counts, after, Nokey(clients), k, e);
    assert Nokey(WithKeys(clients, c, clients[c].keys[k := n])) == Nokey(clients);
    forall other, i | 0 <= i < |Listed(Added(lists, k, e), other)|
      ensures Listed(Added(lists, k, e), other)[i].node < n + 1
    {
      ListedAdded(lists, k, e, other);
    }
  }

  /** Changes to clients that the index does not see. */
  lemma IndexOkFrame(lists: Lists, counts: map<Key, nat>, clients: Clients, after: Clients, n: nat)
    requires IndexOk(lists, counts, clients, n)
    requires forall c :: Keys(after, c) == Keys(clients, c)
    requires forall c :: Keys(clients, c) != map[] ==> (c in Nokey(after) <==> c in Nokey(clients))
    ensures IndexOk(lists, counts, after, n)
  {
    hide Counted, NokeyCount, Keys, Nokey;
    IndexedFrame(lists, clients, after);
    forall k, i | 0 <= i < |Listed(lists, k)|
      ensures Listed(lists, k)[i].client in Nokey(clients) <==> Listed(lists, k)[i].client in Nokey(after)
    {
      assert ListOk(Listed(lists, k), k, clients);
    }
    CountedFrame(lists, counts, Nokey(clients), Nokey(after));
  }

  lemma BlockedAsAfter(clients: Clients, c: nat, x: Client, t: BlockType)
    requires c in clients
    ensures BlockedAs(clients[c := x], t)
            == if x.blocked && x.btype == t then BlockedAs(clients, t) + {c} else BlockedAs(clients, t) - {c}
  {
  }

  /** One client blocks or unblocks: its own type's counter moves by one. */
  lemma TypesAfter(clients: Clients, byType: map<BlockType, int>, c: nat, x: Client, t: BlockType,
                   after: map<BlockType, int>)
    requires TypesOk(clients, byType) && c in clients && x.blocked != clients[c].blocked
    requires t == if x.blocked then x.btype else clients[c].btype
    requires t in byType && after == byType[t := byType[t] + if x.blocked then 1 else -1]
    ensures TypesOk(clients[c := x], after)
  {
    hide BlockedAs;
    forall u: BlockType
      ensures u in after && after[u] == |BlockedAs(clients[c := x], u)|
    {
      assert u in byType && byType[u] == |BlockedAs(clients, u)|;
      BlockedAsAfter(clients, c, x, u);
      InBlockedAs(clients, c, u);
    }
  }

  lemma InBlockedAs(clients: Clients, c: nat, t: BlockType)
    requires c in clients
    ensures c in BlockedAs(clients, t) <==> clients[c].blocked && clients[c].btype == t
  {
  }

  lemma TypesFrame(clients: Clients, byType: map<BlockType, int>, c: nat, x: Client)
    requires TypesOk(clients, byType) && c in clients && x.blocked == clients[c].blocked && x.btype == clients[c].btype
    ensures TypesOk(clients[c := x], byType)
  {
    forall t: BlockType
      ensures BlockedAs(clients[c := x], t) == BlockedAs(clients, t)
    {
    }
  }

  lemma QueueFrame(clients: Clients, unblocked: seq<nat>, c: nat, x: Client)
    requires QueueOk(clients, unblocked) && c in clients && x.queued == clients[c].queued
    ensures QueueOk(clients[c := x], unblocked)
  {
  }

  function Restrict(keys: map<Key, nat>, todo: set<Key>): map<Key, nat> {
    map k | k in todo && k in keys :: keys[k]
  }

  lemma RestrictAll(clients: Clients, c: nat)
    requires c in clients
    ensures WithKeys(clients, c, Restrict(clients[c].keys, clients[c].keys.Keys)) == clients
    ensures Restrict(clients[c].keys, {}) == map[]
  {
    assert Restrict(clients[c].keys, clients[c].keys.Keys) == clients[c].keys;
  }

  /** A client is in no list of a key that it is not blocked on. */
  lemma NotListed(lists: Lists, clients: Clients, c: nat, k: Key)
    requires Indexed(lists, clients) && k !in Keys(clients, c)
    ensures Drop(Listed(lists, k), c) == Listed(lists, k)
  {
    hide Drop;
    ExactlyOnce(lists, clients, c, k);
    DropAbsent(Listed(lists, k), c);
  }

  class Server {
    var clients: Clients
    var blockingKeys: Lists
    var nokeyCounts: map<Key, nat>        // blocking_keys_unblock_on_nokey
    var byType: map<BlockType, int>       // blocked_clients_by_type
    var ready: set<Key>                   // the databases' ready_keys
    var readyKeys: seq<Key>               // server.ready_keys
    var unblockedClients: seq<nat>
    var nextNode: nat
    var inHandlingBlockedClients: bool

    /** Everything but the ready list, which is split while it is being handled. */
    ghost predicate Core()
      reads this
    {
      && IndexOk(blockingKeys, nokeyCounts, clients, nextNode)
      && ClientsOk(clients) && TypesOk(clients, byType) && QueueOk(clients, unblockedClients)
    }

    /** A server whose clients are all unblocked. */
    constructor (ids: set<nat>)
      ensures Core() && ReadyOk(ready, readyKeys) && clients.Keys == ids
    {
      clients := map c | c in ids :: Client(false, BNone, map[], false, false, false);
      blockingKeys, nokeyCounts, ready, readyKeys, unblockedClients, nextNode := map[], map[], {}, [], [], 0;
      byType := map[BNone := 0, BList := 0, BZset := 0, BStream := 0, BModule := 0, BOther := 0];
      inHandlingBlockedClients := false;
      new;
      forall t: BlockType
        ensures t in byType && byType[t] == |BlockedAs(clients, t)|
      {
        assert BlockedAs(clients, t) == {};
        match t {
          case BNone | BList | BZset | BStream | BModule | BOther =>
        }
      }
    }

    /** releaseBlockedEntry.  `left` is the dictionary of keys not yet released: the real one
        keeps its entries until the end if `removeKey` is off. */
    method ReleaseBlockedEntry(c: nat, k: Key, removeKey: bool, ghost left: map<Key, nat>)
      requires c in clients && k in clients[c].keys && k in left && left[k] == clients[c].keys[k]
      requires IndexOk(blockingKeys, nokeyCounts, WithKeys(clients, c, left), nextNode)
      modifies `blockingKeys, `nokeyCounts, `clients
      ensures blockingKeys == Released(old(blockingKeys), k, c)
      ensures clients == if removeKey then WithKeys(old(clients), c, old(clients)[c].keys - {k}) else old(clients)
      ensures IndexOk(blockingKeys, nokeyCounts, WithKeys(clients, c, left - {k}), nextNode)
    {
      hide IndexOk, Drop, Unlink, Uncounted, Released, WithKeys;
      ghost var eff := WithKeys(clients, c, left);
      WithKeysTwice(clients, c, left, left - {k});
      ReleaseOk(blockingKeys, nokeyCounts, eff, nextNode, c, k);
      var l := Unlink(blockingKeys[k], clients[c].keys[k]);
      ReleasedIs(blockingKeys, k, c);
      blockingKeys := blockingKeys[k := l];
      if l == [] {
        blockingKeys := blockingKeys - {k};
      }
      Uncount(k, clients[c].nokey, l == []);
      if removeKey {
        WithKeysTwice(clients, c, clients[c].keys - {k}, left - {k});
        clients := WithKeys(clients, c, clients[c].keys - {k});
      }
    }

    /** The part of releaseBlockedEntry that keeps the counts. */
    method Uncount(k: Key, nokey: bool, last: bool)
      requires nokey ==> k in nokeyCounts && nokeyCounts[k] > 0
      modifies `nokeyCounts
      ensures nokeyCounts == Uncounted(old(nokeyCounts), k, nokey, last)
    {
      if last {
        nokeyCounts := nokeyCounts - {k};
      } else if nokey {
        ghost var was := nokeyCounts;
        nokeyCounts := nokeyCounts[k := nokeyCounts[k] - 1];
        if nokeyCounts[k] == 0 {
          nokeyCounts := nokeyCounts - {k};
          assert nokeyCounts == was - {k};
        }
      }
    }

    /** unblockClientWaitingData: the client leaves every list. */
    method UnblockClientWaitingData(c: nat)
      requires c in clients && IndexOk(blockingKeys, nokeyCounts, clients, nextNode)
      modifies `blockingKeys, `nokeyCounts, `clients
      ensures IndexOk(blockingKeys, nokeyCounts, clients, nextNode)
      ensures clients == WithKeys(old(clients), c, map[])
      ensures forall k: Key :: Listed(blockingKeys, k) == Drop(Listed(old(blockingKeys), k), c)
    {
      hide IndexOk, Drop, Released, Restrict, WithKeys, Listed;
      ghost var was := blockingKeys;
      var keys := clients[c].keys;
      NotListedAnywhere(was, nokeyCounts, clients, nextNode, c);
      RestrictAll(clients, c);
      if |keys| == 0 {
        assert keys == map[];
        return;
      }
      var todo := keys.Keys;
      while todo != {}
        invariant todo <= keys.Keys && clients == old(clients)
        invariant IndexOk(blockingKeys, nokeyCounts, WithKeys(clients, c, Restrict(keys, todo)), nextNode)
        invariant forall k: Key ::
                    Listed(blockingKeys, k)
                    == if k in keys && k !in todo then Drop(Listed(was, k), c) else Listed(was, k)
        decreases |todo|
      {
        var k :| k in todo;
        RestrictHas(keys, todo, k);
        ListedReleasedAll(blockingKeys, k, c);
        ReleaseBlockedEntry(c, k, false, Restrict(keys, todo));
        todo := todo - {k};
      }
      clients := WithKeys(clients, c, map[]);
    }

    /** blockForKeys' loop: the client goes to the end of the list of each new key.  `nokey` is not
        yet in the client's own state. */
    method AddToLists(c: nat, keys: seq<Key>, nokey: bool)
      requires c in clients && clients[c].keys == map[]
      requires IndexOk(blockingKeys, nokeyCounts, WithNokey(clients, c, nokey), nextNode)
      modifies `blockingKeys, `nokeyCounts, `clients, `nextNode
      ensures c in clients && clients == WithKeys(old(clients), c, clients[c].keys)
      ensures forall k :: k in clients[c].keys <==> k in keys
      ensures IndexOk(blockingKeys, nokeyCounts, WithNokey(clients, c, nokey), nextNode)
      ensures forall k: Key ::
                Ids(Listed(blockingKeys, k)) == Ids(Listed(old(blockingKeys), k)) + if k in keys then [c] else []
      ensures forall k: Key :: Listed(old(blockingKeys), k) <= Listed(blockingKeys, k)
    {
      hide IndexOk, WithKeys, Listed, Ids, Added, WithNokey;
      WithKeysSame(clients, c);
      var j := 0;
      while j < |keys|
        invariant j <= |keys| && c in clients && clients == WithKeys(old(clients), c, clients[c].keys)
        invariant forall k :: k in clients[c].keys <==> k in keys[..j]
        invariant IndexOk(blockingKeys, nokeyCounts, WithNokey(clients, c, nokey), nextNode)
        invariant forall k: Key ::
                    Ids(Listed(blockingKeys, k))
                    == Ids(Listed(old(blockingKeys), k)) + if k in keys[..j] then [c] else []
        invariant forall k: Key :: Listed(old(blockingKeys), k) <= Listed(blockingKeys, k)
      {
        InTake(keys, j);
        if keys[j] !in clients[c].keys {
          WithKeysTwice(old(clients), c, clients[c].keys, clients[c].keys[keys[j] := nextNode]);
          WithKeysTwice(old(clients), c, clients[c].keys[keys[j] := nextNode], map[]);
          AddToList(c, keys[j], nokey);
        }
        j := j + 1;
      }
      assert keys[..|keys|] == keys;
    }

    /** One round of that loop. */
    method AddToList(c: nat, k: Key, nokey: bool)
      requires c in clients && k !in clients[c].keys
      requires IndexOk(blockingKeys, nokeyCounts, WithNokey(clients, c, nokey), nextNode)
      modifies `blockingKeys, `nokeyCounts, `clients, `nextNode
      ensures clients == WithKeys(old(clients), c, old(clients)[c].keys[k := old(nextNode)])
      ensures IndexOk(blockingKeys, nokeyCounts, WithNokey(clients, c, nokey), nextNode)
      ensures forall x: Key ::
                Ids(Listed(blockingKeys, x)) == Ids(Listed(old(blockingKeys), x)) + if x == k then [c] else []
      ensures forall x: Key :: Listed(old(blockingKeys), x) <= Listed(blockingKeys, x)
    {
      hide IndexOk, Ids, Listed, Added, WithKeys, WithNokey;
      WaitingAdded(blockingKeys, k, Entry(nextNode, c));
      WithBoth(clients, c, clients[c].keys[k := nextNode], nokey);
      AddOk(blockingKeys, nokeyCounts, WithNokey(clients, c, nokey), nextNode, c, k);
      AddedIs(blockingKeys, k, Entry(nextNode, c));
      var l := [];
      if k in blockingKeys {
        l := blockingKeys[k];
      }
      blockingKeys := blockingKeys[k := l + [Entry(nextNode, c)]];
      clients := WithKeys(clients, c, clients[c].keys[k := nextNode]);
      nextNode := nextNode + 1;
      if nokey {
        nokeyCounts := nokeyCounts[k := if k !in nokeyCounts then 1 else nokeyCounts[k] + 1];
      }
    }

    /** blockClient. */
    method BlockClient(c: nat, btype: BlockType)
      requires c in clients && btype in byType
      modifies `clients, `byType
      ensures clients == old(clients)[c := old(clients)[c].(blocked := true, btype := btype)]
      ensures byType == old(byType)[btype := old(byType)[btype] + 1]
    {
      clients := clients[c := clients[c].(blocked := true, btype := btype)];
      byType := byType[btype := byType[btype] + 1];
    }

    /** blockForKeys: the client goes once to the end of the list of each of the keys. */
    method BlockForKeys(c: nat, btype: BlockType, keys: seq<Key>, nokey: bool)
      requires Core() && c in clients && !clients[c].blocked && OnKeys(btype)
      modifies `blockingKeys, `nokeyCounts, `clients, `nextNode, `byType
      ensures Core()
      ensures c in clients && clients == old(clients)[c := clients[c]]
      ensures BlockedFor(clients[c], Block(btype, keys, nokey), old(clients)[c])
      ensures forall k: Key ::
                Ids(Listed(blockingKeys, k)) == Ids(Listed(old(blockingKeys), k)) + if k in keys then [c] else []
      ensures forall k: Key :: Listed(old(blockingKeys), k) <= Listed(blockingKeys, k)
    {
      hide IndexOk, ClientsOk, TypesOk, QueueOk, Listed, Ids, WithKeys, WithNokey;
      ghost var was, types := clients, byType;
      UnblockedIsEmpty(clients, c);
      ChangeNokey(blockingKeys, nokeyCounts, clients, nextNode, c, nokey);
      AddToLists(c, keys, nokey);
      WithKeysTwice(was, c, clients[c].keys, map[]);
      WithNokeyIs(was, clients[c].keys, c, nokey);
      clients := WithNokey(clients, c, nokey);
      ghost var mid := clients;
      if btype != BModule {
        clients := clients[c := clients[c].(pending := true)];
      }
      BlockTypeKnown(was, byType, btype);
      BlockClient(c, btype);
      assert clients == mid[c := clients[c]] && clients == was[c := clients[c]];
      BlockedOk(was, c, clients[c], types, unblockedClients);
      IndexOkSame(blockingKeys, nokeyCounts, mid, c, clients[c], nextNode);
    }

    /** queueClientForReprocessing: at most once in the list. */
    method QueueClientForReprocessing(c: nat)
      requires Core() && c in clients
      modifies `clients, `unblockedClients
      ensures Core() && clients == old(clients)[c := old(clients)[c].(queued := true)]
      ensures unblockedClients == if old(clients)[c].queued then old(unblockedClients) else old(unblockedClients) + [c]
    {
      hide IndexOk, ClientsOk, TypesOk, QueueOk;
      ghost var was := clients;
      assert clients[c].queued ==> clients == clients[c := clients[c].(queued := true)];
      if !clients[c].queued {
        QueuedOk(clients, unblockedClients, c, byType);
        IndexOkSame(blockingKeys, nokeyCounts, clients, c, clients[c].(queued := true), nextNode);
        clients := clients[c := clients[c].(queued := true)];
        unblockedClients := unblockedClients + [c];
      }
    }

    /** unblockClient: the client leaves every list and stops being counted. */
    method UnblockClient(c: nat, queue: bool)
      requires Core() && c in clients && clients[c].blocked
      modifies `blockingKeys, `nokeyCounts, `clients, `byType, `unblockedClients
      ensures Core()
      ensures var x := old(clients)[c];
              && clients == old(clients)[c := Client(false, BNone, map[], false, x.pending, x.queued || queue)]
              && unblockedClients == Queued(old(unblockedClients), c, queue && !x.queued)
      ensures forall k: Key :: Listed(blockingKeys, k) == Drop(Listed(old(blockingKeys), k), c)
    {
      hide IndexOk, ClientsOk, TypesOk, QueueOk, Listed, Drop, WithKeys;
      ghost var was := clients;
      NoKeysUnlessOnKeys(clients, c);
      WithKeysTwice(clients, c, map[], map[]);
      WithKeysIs(clients, c, map[]);
      if OnKeys(clients[c].btype) {
        UnblockClientWaitingData(c);
      } else {
        NotListedAnywhere(blockingKeys, nokeyCounts, clients, nextNode, c);
      }
      ghost var mid, x := clients, clients[c].(blocked := false, btype := BNone, nokey := false);
      UnblockedOk(was, c, x, byType, unblockedClients);
      byType := byType[clients[c].btype := byType[clients[c].btype] - 1];
      clients := clients[c := clients[c].(blocked := false, btype := BNone, nokey := false)];
      NoKeysNoMatter(blockingKeys, nokeyCounts, mid, nextNode, c, x);
      assert clients == was[c := x];
      if queue {
        QueueClientForReprocessing(c);
      }
    }

    ghost function Now(): World
      reads `clients, `blockingKeys, `unblockedClients
    {
      World(clients, blockingKeys, unblockedClients)
    }

    /** Somebody is blocked for what the object may serve, or for a module, and the key has waiters. */
    ghost predicate Signallable(k: Key, t: ObjType, deleted: bool)
      reads `clients, `blockingKeys, `nokeyCounts
    {
      && BlockTypeOf(t) != BNone
      && (BlockedAs(clients, BlockTypeOf(t)) != {} || BlockedAs(clients, BModule) != {})
      && (if deleted then k in nokeyCounts else k in blockingKeys)
    }

    /** signalKeyAsReadyLogic.  The quick returns skip no key that somebody of the right type waits
        for; `pending` is the part of an older ready list that is still being handled. */
    method SignalKeyAsReady(k: Key, t: ObjType, deleted: bool, ghost pending: seq<Key>)
      requires Core() && ReadyOk(ready, pending + readyKeys)
      modifies `ready, `readyKeys
      ensures ReadyOk(ready, pending + readyKeys)
      ensures readyKeys == old(readyKeys) + if k !in old(ready) && Signallable(k, t, deleted) then [k] else []
      ensures Awaited(blockingKeys, clients, k, BlockTypeOf(t), deleted) ==> k in ready
    {
      hide IndexOk, ClientsOk, TypesOk, QueueOk, ReadyOk, Awaited, BlockedAs;
      var btype := BlockTypeOf(t);
      AwaitedFound(blockingKeys, nokeyCounts, clients, byType, nextNode, k, btype, deleted);
      BlockTypeKnown(clients, byType, btype);
      BlockTypeKnown(clients, byType, BModule);
      if btype == BNone {
        return;
      }
      if byType[btype] == 0 && byType[BModule] == 0 {
        return;
      }
      if deleted {
        if k !in nokeyCounts {
          return;
        }
      } else {
        if k !in blockingKeys {
          return;
        }
      }
      if k in ready {
        return;
      }
      ReadyMore(ready, pending, readyKeys, k);
      ready := ready + {k};
      readyKeys := readyKeys + [k];
    }

    /** The signals of a command. */
    method SignalAll(signals: seq<Signal>, ghost pending: seq<Key>)
      requires Core() && ReadyOk(ready, pending + readyKeys)
      modifies `ready, `readyKeys
      ensures ReadyOk(ready, pending + readyKeys) && old(readyKeys) <= readyKeys
      ensures AllHeard(signals, blockingKeys, clients, pending + readyKeys)
      ensures OnlySignalled(signals, old(readyKeys), readyKeys)
    {
      hide IndexOk, ClientsOk, TypesOk, QueueOk, ReadyOk, Awaited, BlockTypeOf, OnlySignalled, AllHeard;
      NothingSignalled(signals, blockingKeys, clients, pending, readyKeys);
      for j := 0 to |signals|
        invariant Core() && ReadyOk(ready, pending + readyKeys) && old(readyKeys) <= readyKeys
        invariant AllHeard(signals[..j], blockingKeys, clients, pending + readyKeys)
        invariant OnlySignalled(signals[..j], old(readyKeys), readyKeys)
      {
        ghost var before := readyKeys;
        SignalKeyAsReady(signals[j].key, signals[j].objType, signals[j].deleted, pending);
        ReadyIsListed(ready, pending + readyKeys, signals[j].key);
        OneMoreSignal(signals, j, blockingKeys, clients, pending, old(readyKeys), before, readyKeys);
      }
      assert signals[..|signals|] == signals;
    }

    /** unblockClientOnKey: the client leaves every list and its command runs again. */
    method UnblockClientOnKey(c: nat, k: Key, outcome: Outcome, ghost pending: seq<Key>)
      requires Core() && ReadyOk(ready, pending + readyKeys) && OutcomeOk(outcome)
      requires c in clients && k in clients[c].keys && clients[c].btype != BModule
      modifies `blockingKeys, `nokeyCounts, `clients, `nextNode, `byType, `unblockedClients, `ready, `readyKeys
      ensures Core() && ReadyOk(ready, pending + readyKeys) && old(readyKeys) <= readyKeys
      ensures clients.Keys == old(clients).Keys
      ensures var x := old(clients)[c];
              if x.pending then RanAgain(clients[c], FirstFor(outcome.blocks, c), x)
              else clients[c] == Client(false, BNone, map[], false, false, x.queued)
      ensures forall d :: d in clients && d != c ==>
                BlockedBy(clients[d], if old(clients)[c].pending then outcome.blocks else [], d, old(clients)[d])
      ensures var x := old(clients)[c];
              unblockedClients
              == Queued(old(unblockedClients), c, x.pending && FirstFor(outcome.blocks, c).None? && !x.queued)
      ensures OnlySignalled(if old(clients)[c].pending then outcome.signals else [], old(readyKeys), readyKeys)
      ensures old(clients)[c].pending ==>
                HeardBeside(outcome.signals, old(blockingKeys), old(clients), c, pending + readyKeys)
      ensures forall x: Key :: Drop(Listed(old(blockingKeys), x), c) <= Listed(blockingKeys, x)
      ensures forall x: Key :: Ids(Listed(blockingKeys, x)) == Ids(Drop(Listed(old(blockingKeys), x), c))
                + if old(clients)[c].pending then Newcomers(Freed(old(clients), c), outcome.blocks, x) else []
    {
      hide IndexOk, ClientsOk, TypesOk, QueueOk, ReadyOk, Awaited, Listed, Drop, WithKeys, Released, Ids, RanAgain,
        Newcomers, BlockedBy, Freed, FirstFor, OnlySignalled, HeardBeside, AllHeard;
      ghost var was, lists := clients, blockingKeys;
      KeysMeanBlocked(clients, c, k);
      WithKeysSame(clients, c);
      WithKeysIs(clients, c, clients[c].keys - {k});
      WithKeysTwice(clients, c, clients[c].keys - {k}, clients[c].keys - {k});
      FewerKeys(clients, c, clients[c].keys - {k}, byType, unblockedClients);
      ListedReleasedAll(blockingKeys, k, c);
      ReleaseBlockedEntry(c, k, true, clients[c].keys);
      assert clients[c].btype == BStream || clients[c].btype == BList || clients[c].btype == BZset;
      UnblockClient(c, false);
      DropTwiceAll(lists, c);
      assert forall x: Key :: Listed(blockingKeys, x) == Drop(Listed(lists, x), c);
      ghost var mid := clients;
      assert mid == was[c := mid[c]];
      ghost var queues := blockingKeys;
      if clients[c].pending {
        ReRun(c, outcome, pending);
        BesideHeard(outcome.signals, was, lists, mid, queues, c, pending + readyKeys);
        RanAgainFrom(clients[c], FirstFor(outcome.blocks, c), mid[c], was[c]);
        FreedSame(was, mid, c, outcome.blocks);
      } else {
        NothingAppended(blockingKeys);
        NotBlockedBy(clients);
        NoNewKeys(readyKeys);
      }
    }

    /** The re-execution in unblockClientOnKey. */
    method ReRun(c: nat, outcome: Outcome, ghost pending: seq<Key>)
      requires Core() && ReadyOk(ready, pending + readyKeys) && OutcomeOk(outcome)
      requires c in clients && clients[c] == Client(false, BNone, map[], false, true, clients[c].queued)
      modifies `blockingKeys, `nokeyCounts, `clients, `nextNode, `byType, `unblockedClients, `ready, `readyKeys
      ensures Core() && ReadyOk(ready, pending + readyKeys) && old(readyKeys) <= readyKeys
      ensures clients.Keys == old(clients).Keys && RanAgain(clients[c], FirstFor(outcome.blocks, c), old(clients)[c])
      ensures forall d :: d in clients && d != c ==> BlockedBy(clients[d], outcome.blocks, d, old(clients)[d])
      ensures unblockedClients
              == Queued(old(unblockedClients), c, FirstFor(outcome.blocks, c).None? && !old(clients)[c].queued)
      ensures OnlySignalled(outcome.signals, old(readyKeys), readyKeys)
      ensures AllHeard(outcome.signals, old(blockingKeys), old(clients), pending + readyKeys)
      ensures forall x: Key :: Listed(old(blockingKeys), x) <= Listed(blockingKeys, x)
      ensures forall x: Key ::
                Ids(Listed(blockingKeys, x))
                == Ids(Listed(old(blockingKeys), x)) + Newcomers(old(clients), outcome.blocks, x)
    {
      hide IndexOk, ClientsOk, TypesOk, QueueOk, ReadyOk, Awaited, Listed, Ids, Newcomers, FirstFor, BlockedBy,
        OnlySignalled, AllHeard;
      ghost var was := clients;
      NotPending(clients, c, byType, unblockedClients);
      IndexOkSame(blockingKeys, nokeyCounts, clients, c, clients[c].(pending := false), nextNode);
      clients := clients[c := clients[c].(pending := false)];
      ghost var idle := clients;
      SignalAll(outcome.signals, pending);
      HeardSame(outcome.signals, blockingKeys, was, idle, c, pending + readyKeys);
      BlockAll(outcome.blocks);
      ghost var after := clients;
      NewcomersSame(was, idle, outcome.blocks);
      RanOrNot(after[c], outcome.blocks, c, idle[c]);
      if !clients[c].blocked {
        QueueClientForReprocessing(c);
      }
    }

    /** Blocking clients, each unless it is blocked already. */
    method BlockAll(blocks: seq<(nat, Block)>)
      requires Core() && BlocksOk(blocks)
      modifies `blockingKeys, `nokeyCounts, `clients, `nextNode, `byType
      ensures Core() && clients.Keys == old(clients).Keys
      ensures forall d :: d in clients ==> BlockedBy(clients[d], blocks, d, old(clients)[d])
      ensures forall x: Key :: Listed(old(blockingKeys), x) <= Listed(blockingKeys, x)
      ensures forall x: Key ::
                Ids(Listed(blockingKeys, x)) == Ids(Listed(old(blockingKeys), x)) + Newcomers(old(clients), blocks, x)
    {
      hide IndexOk, ClientsOk, TypesOk, QueueOk, Listed, Ids, Newcomers, FirstFor, BlockedBy;
      ghost var was, lists := clients, blockingKeys;
      BlockNone(was, lists, blocks);
      for i := 0 to |blocks|
        invariant Core() && clients.Keys == was.Keys
        invariant forall d :: d in clients ==> BlockedBy(clients[d], blocks[..i], d, was[d])
        invariant forall x: Key :: Listed(lists, x) <= Listed(blockingKeys, x)
        invariant forall x: Key ::
                    Ids(Listed(blockingKeys, x)) == Ids(Listed(lists, x)) + Newcomers(was, blocks[..i], x)
      {
        var (c, b) := blocks[i];
        ghost var before, queues := clients, blockingKeys;
        if c in clients {
          BlockedFlag(clients[c], blocks[..i], c, was[c]);
        }
        if c in clients && !clients[c].blocked {
          BlockForKeys(c, b.btype, b.keys, b.nokey);
        } else {
          NothingAppended(blockingKeys);
        }
        BlockOneMore(was, before, clients, blocks, i);
        NewcomersNext(was, before, blocks, i);
        ListsNext(lists, queues, blockingKeys, was, before, blocks, i);
      }
      assert blocks[..|blocks|] == blocks;
    }

    /** The body of the loop in handleClientsBlockedOnKey. */
    method VisitClient(c: nat, k: Key, visit: Visit, ghost pending: seq<Key>) returns (ghost e: Event)
      requires Core() && ReadyOk(ready, pending + readyKeys) && OutcomeOk(visit.outcome)
      requires c in Ids(Listed(blockingKeys, k))
      modifies `blockingKeys, `nokeyCounts, `clients, `nextNode, `byType, `unblockedClients, `ready, `readyKeys
      ensures Core() && ReadyOk(ready, pending + readyKeys) && old(readyKeys) <= readyKeys
      ensures e == Event(k, c, visit, old(Now()), Now())
      ensures Did(e) && Heard(e, pending + readyKeys) && OnlySignalled(Made(e), old(readyKeys), readyKeys)
      ensures blockingKeys == old(blockingKeys)
              || forall q: Key :: Drop(Listed(old(blockingKeys), q), c) <= Listed(blockingKeys, q)
    {
      hide Indexed, Counted, NodesBelow, ClientsOk, TypesOk, QueueOk, ReadyOk, Awaited, Listed, Drop, Ids, RanAgain,
        BlockedBy, FirstFor, Newcomers, Freed, OnlySignalled, HeardBeside, AllHeard;
      ListedIsBlocked(blockingKeys, clients, k, c);
      ghost var was, lists := clients, blockingKeys;
      ghost var queue := unblockedClients;
      NoNewKeys(readyKeys);
      NobodyNew();
      var o := visit.found;
      var x := clients[c];
      if (o.Some? && x.btype == BlockTypeOf(o.value)) || (o.Some? && x.btype == BModule) || x.nokey {
        if x.btype != BModule {
          UnblockClientOnKey(c, k, visit.outcome, pending);
        } else {
          SignalAll(visit.outcome.signals, pending);
        }
      }
      NothingHeard(lists, was, c, pending + readyKeys);
      e := Event(k, c, visit, World(was, lists, queue), Now());
    }

    /** handleClientsBlockedOnKey: one pass over the clients blocked on a key visits those that were
        there at the start, each once, in the order in which they blocked.  `cursor` is the
        iterator; every node it points at is still in the list when it is followed. */
    method HandleClientsBlockedOnKey(k: Key, script: seq<Visit>, start: nat, ghost pending: seq<Key>)
        returns (visited: seq<nat>, at: nat, ghost log: seq<Event>)
      requires Core() && ReadyOk(ready, pending + readyKeys) && ScriptOk(script) && start <= |script|
      modifies `blockingKeys, `nokeyCounts, `clients, `nextNode, `byType, `unblockedClients, `ready, `readyKeys
      ensures Core() && ReadyOk(ready, pending + readyKeys) && old(readyKeys) <= readyKeys
      ensures visited == Ids(Listed(old(blockingKeys), k)) && NoDuplicates(visited)
      ensures Trace(log, old(Now()), Now())
      ensures LogOf(log, k, visited, script, start) && LogHeard(log, pending + readyKeys)
      ensures KeysFrom(log, old(readyKeys), readyKeys)
      ensures Bystanders(script, start, at, old(clients), clients, visited)
      ensures Remain(old(blockingKeys), blockingKeys, visited)
      ensures at == Least(start + |visited|, |script|) && (at == start ==> readyKeys == old(readyKeys))
    {
      hide IndexOk, ClientsOk, TypesOk, QueueOk, ReadyOk, Drop, Listed, Ids, InPass, Remain, NoDuplicates, Trace, LogOf,
        LogHeard, KeysFrom, Did, Heard, OnlySignalled, Bystanders, Made;
      ghost var was, lists, queue, keys := clients, blockingKeys, unblockedClients, readyKeys;
      visited, at, log := [], start, [];
      PassStart(blockingKeys, nokeyCounts, clients, nextNode, k);
      DistinctIds(blockingKeys, nokeyCounts, clients, nextNode, k);
      NobodyYet(script, start, was, lists);
      NothingLogged(World(was, lists, queue), k, script, start, keys, pending + keys);
      if k !in blockingKeys {
        return;
      }
      ghost var initial, i: nat, kept, added := blockingKeys[k], 0, [], [];
      var cursor, count := Some(blockingKeys[k][0].node), |blockingKeys[k]|;
      while count > 0 && cursor.Some?
        invariant Core() && ReadyOk(ready, pending + readyKeys) && old(readyKeys) <= readyKeys
        invariant at == Least(start + |visited|, |script|) && (at == start ==> readyKeys == old(readyKeys))
        invariant i <= |initial| && count == |initial| - i && visited == Ids(initial[..i])
        invariant Trace(log, World(was, lists, queue), Now())
                  && LogOf(log, k, visited, script, start)
        invariant LogHeard(log, pending + readyKeys) && KeysFrom(log, keys, readyKeys)
        invariant Bystanders(script, start, at, was, clients, visited) && Remain(lists, blockingKeys, visited)
        invariant InPass(Listed(blockingKeys, k), cursor, initial, i, kept, added)
      {
        var visit := VisitAt(script, at);
        ghost var before, queues, from, ready0 := clients, blockingKeys, at, readyKeys;
        at := if at < |script| then at + 1 else at;
        var receiver: nat;
        ghost var e: Event;
        receiver, cursor, kept, added, e := VisitNext(k, cursor, visit, initial, i, kept, added, pending);
        DidToOthers(e);
        DidOf(e);
        NothingMade(e, ready0, readyKeys);
        JoinsMore(script, start, from, was, before, clients, visited, receiver);
        OneMoreEvent(log, e, World(was, lists, queue), k, visited, script, start, pending, keys, ready0, readyKeys);
        log := log + [e];
        RemainMore(lists, queues, blockingKeys, visited, receiver);
        TakeId(initial, i);
        visited := visited + [receiver];
        i, count := i + 1, count - 1;
      }
      PassEnd(blockingKeys, nokeyCounts, clients, nextNode, k, cursor, initial, i, kept, added);
      if cursor.Some? {
        // The test calls listNext once more before it looks at the count.
        cursor := NextOf(Listed(blockingKeys, k), cursor.value);
      }
    }

    /** listNext and the visit it leads to. */
    method VisitNext(k: Key, cursor: Option<nat>, visit: Visit, ghost initial: seq<Entry>, ghost i: nat,
                     ghost kept: seq<Entry>, ghost added: seq<Entry>, ghost pending: seq<Key>)
        returns (receiver: nat, next: Option<nat>, ghost kept1: seq<Entry>, ghost added1: seq<Entry>,
                 ghost e: Event)
      requires Core() && ReadyOk(ready, pending + readyKeys) && OutcomeOk(visit.outcome)
      requires i < |initial| && InPass(Listed(blockingKeys, k), cursor, initial, i, kept, added)
      modifies `blockingKeys, `nokeyCounts, `clients, `nextNode, `byType, `unblockedClients, `ready, `readyKeys
      ensures Core() && ReadyOk(ready, pending + readyKeys) && old(readyKeys) <= readyKeys
      ensures e == Event(k, receiver, visit, old(Now()), Now())
      ensures Did(e) && Heard(e, pending + readyKeys) && OnlySignalled(Made(e), old(readyKeys), readyKeys)
      ensures Remain(old(blockingKeys), blockingKeys, [receiver])
      ensures receiver == initial[i].client && InPass(Listed(blockingKeys, k), next, initial, i + 1, kept1, added1)
    {
      hide IndexOk, ClientsOk, TypesOk, QueueOk, ReadyOk, Drop, Listed, Ids, Where, NextOf, DistinctClients,
        Remain, Did, Heard, OnlySignalled, Made;
      ghost var lists := blockingKeys;
      var l := Listed(blockingKeys, k);
      Followed(blockingKeys, nokeyCounts, clients, nextNode, k, cursor, initial, i, kept, added);
      next := NextOf(l, cursor.value);
      receiver := l[Where(l, cursor.value)].client;
      ListedClient(l, |kept|);
      e := VisitClient(receiver, k, visit, pending);
      StillWaiting(lists, blockingKeys, receiver);
      kept1, added1 := PassStep(l, Listed(blockingKeys, k), initial, i, kept, added);
    }

    /** handleClientsBlockedOnKeys: keys are served in the order of their signals until none is
        left, and everybody who waited for one of the signalled keys has been visited when that
        key is done.  A client whose visits find what it waits for and that no command blocks again
        is free at the end.  A call from inside itself does nothing. */
    method HandleClientsBlockedOnKeys(script: seq<Visit>)
        returns (served: seq<Key>, visits: seq<seq<nat>>, ghost turns: seq<Turn>)
      requires Core() && ReadyOk(ready, readyKeys) && ScriptOk(script)
      modifies this
      ensures Core() && inHandlingBlockedClients == old(inHandlingBlockedClients) && |visits| == |served|
      ensures if inHandlingBlockedClients then served == [] && ready == old(ready) && readyKeys == old(readyKeys)
              else readyKeys == [] && ready == {} && old(readyKeys) <= served
      ensures forall i :: 0 <= i < |visits| ==> NoDuplicates(visits[i])
      ensures !inHandlingBlockedClients ==> AllVisited(old(blockingKeys), old(readyKeys), visits, 0)
      ensures History(turns, script, old(Now()), Now())
      ensures Names(turns, served, visits) && Later(turns, served, []) && Origins(turns, served, |old(readyKeys)|)
      ensures !inHandlingBlockedClients ==>
                forall k: Key, c :: k in old(readyKeys) && c in Ids(Listed(old(blockingKeys), k)) ==>
                  c in old(clients) && (Satisfied(turns, c, old(clients)[c]) ==> LeftAll(clients, blockingKeys, c))
    {
      hide IndexOk, ClientsOk, TypesOk, QueueOk, ReadyOk, Listed, Ids, AllVisited, NoDuplicates, HistoryTo, Names,
        Later, Origins, AllSignalled, Satisfied;
      served, visits, turns := [], [], [];
      ghost var was, lists, queue, keys := clients, blockingKeys, unblockedClients, readyKeys;
      IndexedOf(blockingKeys, nokeyCounts, clients, nextNode);
      NoTurns(Now(), script, keys);
      NoTurns(Now(), script, []);
      if inHandlingBlockedClients {
        return;
      }
      inHandlingBlockedClients := true;
      var at := 0;
      while |readyKeys| != 0
        invariant Core() && ReadyOk(ready, readyKeys) && at <= |script| && inHandlingBlockedClients
                  && |visits| == |served|
        invariant forall i :: 0 <= i < |visits| ==> NoDuplicates(visits[i])
        invariant served == [] ==> readyKeys == keys && blockingKeys == lists
        invariant served != [] ==> keys <= served
        invariant served != [] ==> AllVisited(lists, keys, visits, 0)
        invariant HistoryTo(turns, script, World(was, lists, queue), Now(), at)
        invariant Names(turns, served, visits) && Later(turns, served, readyKeys) && Origins(turns, served, |keys|)
        invariant served != [] ==> AllSignalled(turns, readyKeys)
        decreases |script| - at, |readyKeys|
      {
        ghost var before, servedBefore, turnsBefore, more := visits, served, turns, readyKeys;
        served, visits, at, turns := ServeReady(served, visits, script, at, turns, World(was, lists, queue));
        VisitedMore(lists, keys, before, visits);
        OriginsMore(turnsBefore, turns, servedBefore, more, visits, |keys|);
      }
      NoKeyNobody(lists, visits);
      NoneReady(ready);
      IndexedOf(blockingKeys, nokeyCounts, clients, nextNode);
      AllSatisfied(turns, script, World(was, lists, queue), Now(), served, visits, keys, at);
      inHandlingBlockedClients := false;
    }

    /** One round: the ready list is taken, and a new one collects the signals made meanwhile. */
    method ServeReady(before: seq<Key>, visitsBefore: seq<seq<nat>>, script: seq<Visit>, start: nat,
                      ghost turnsBefore: seq<Turn>, ghost from: World)
        returns (served: seq<Key>, visits: seq<seq<nat>>, at: nat, ghost turns: seq<Turn>)
      requires Core() && ReadyOk(ready, readyKeys) && ScriptOk(script) && start <= |script|
               && |before| == |visitsBefore|
      requires HistoryTo(turnsBefore, script, from, Now(), start)
      requires Names(turnsBefore, before, visitsBefore) && Later(turnsBefore, before, readyKeys)
      modifies `blockingKeys, `nokeyCounts, `clients, `nextNode, `byType, `unblockedClients, `ready, `readyKeys
      ensures Core() && ReadyOk(ready, readyKeys) && served == before + old(readyKeys) && |served| == |visits|
              && visitsBefore <= visits
      ensures forall i :: |visitsBefore| <= i < |visits| ==> NoDuplicates(visits[i])
      ensures start <= at <= |script| && (at == start ==> readyKeys == [])
      ensures AllVisited(old(blockingKeys), old(readyKeys), visits, |before|)
      ensures turnsBefore <= turns && HistoryTo(turns, script, from, Now(), at)
      ensures Names(turns, served, visits) && Later(turns, served, readyKeys) && AllSignalled(turns, readyKeys)
    {
      hide IndexOk, ClientsOk, TypesOk, QueueOk, ReadyOk, Listed, Ids, AllVisited, WaitOrVisited, Bystanders, Remain,
        NoDuplicates, HistoryTo, Names, Later, AllSignalled, Trace, LogOf, LogHeard, KeysFrom;
      served, visits, at, turns := before, visitsBefore, start, turnsBefore;
      var l := readyKeys;
      ghost var all, lists := l, blockingKeys;
      assert l + [] == l && before + all[..0] == before;
      readyKeys := [];
      NobodyServed(lists, visits, |before|);
      NoneSignalled(turns);
      while |l| != 0
        invariant Core() && ReadyOk(ready, l + readyKeys) && start <= at <= |script|
                  && (at == start ==> readyKeys == [])
        invariant |l| <= |all| && l == all[|all| - |l|..] && served == before + all[..|all| - |l|]
        invariant |visits| == |served| && visitsBefore <= visits && turnsBefore <= turns
        invariant forall i :: |visitsBefore| <= i < |visits| ==> NoDuplicates(visits[i])
        invariant AllVisited(lists, all[..|all| - |l|], visits, |before|) && WaitOrVisited(lists, blockingKeys, visits)
        invariant HistoryTo(turns, script, from, Now(), at) && Names(turns, served, visits)
        invariant Later(turns, served, l + readyKeys) && AllSignalled(turns, readyKeys)
        decreases |l|
      {
        var k := l[0];
        ReadyLess(ready, l, readyKeys);
        ready := ready - {k};
        var visited: seq<nat>;
        ghost var queues, more, log := blockingKeys, readyKeys, [];
        ghost var t := Turn(k, [], at, [], Now());
        visited, at, log := HandleClientsBlockedOnKey(k, script, at, l[1..]);
        TakeServed(before, all, |all| - |l|);
        ghost var n := |all| - |l|;
        ServedNext(lists, queues, blockingKeys, all[..n], k, visits, visited, |before|);
        t := t.(visited := visited, log := log);
        TurnDone(turns, t, script, from, Now(), served, visits, l, more, readyKeys);
        assert all[..n] + [k] == all[..n + 1];
        l := l[1..];
        served, visits, turns := served + [k], visits + [visited], turns + [t];
      }
      assert l + readyKeys == readyKeys && all[..|all|] == all;
    }
  }

  /** A client is visited for one of the first `n` keys. */
  predicate Visited(visits: seq<seq<nat>>, n: nat, d: nat) {
    exists i :: 0 <= i < n && i < |visits| && d in visits[i]
  }

  /** Everybody in the list of the j-th key is visited by the time that key is done, the first of
      the keys being the `n`-th that is served. */
  ghost predicate AllVisited(lists: Lists, keys: seq<Key>, visits: seq<seq<nat>>, n: nat) {
    forall j, d :: 0 <= j < |keys| && d in Ids(Listed(lists, keys[j])) ==> Visited(visits, n + j + 1, d)
  }

  /** A client leaves a list only when it is visited. */
  ghost predicate WaitOrVisited(lists: Lists, after: Lists, visits: seq<seq<nat>>) {
    forall q: Key, d :: d in Ids(Listed(lists, q)) ==> d in Ids(Listed(after, q)) || Visited(visits, |visits|, d)
  }

  lemma NoKeyNobody(lists: Lists, visits: seq<seq<nat>>)
    ensures AllVisited(lists, [], visits, 0)
  {
  }

  lemma NobodyServed(lists: Lists, visits: seq<seq<nat>>, n: nat)
    ensures AllVisited(lists, [], visits, n) && WaitOrVisited(lists, lists, visits)
  {
  }

  lemma VisitedMore(lists: Lists, keys: seq<Key>, before: seq<seq<nat>>, after: seq<seq<nat>>)
    requires before <= after
    ensures AllVisited(lists, keys, before, 0) ==> AllVisited(lists, keys, after, 0)
  {
    hide Visited, Listed, Ids;
    forall n: nat, d | Visited(before, n, d)
      ensures Visited(after, n, d)
    {
      VisitedIn(before, after, n, n, d);
    }
  }

  lemma VisitedIn(before: seq<seq<nat>>, after: seq<seq<nat>>, n: nat, m: nat, d: nat)
    requires before <= after && n <= m && Visited(before, n, d)
    ensures Visited(after, m, d)
  {
    var i :| 0 <= i < n && i < |before| && d in before[i];
    assert after[i] == before[i];
  }

  lemma VisitedLast(visits: seq<seq<nat>>, visited: seq<nat>, d: nat)
    requires d in visited
    ensures Visited(visits + [visited], |visits| + 1, d)
  {
    assert (visits + [visited])[|visits|] == visited;
  }

  /** Serving one more key. */
  lemma ServedNext(lists: Lists, queues: Lists, after: Lists, keys: seq<Key>, k: Key, visits: seq<seq<nat>>,
                   visited: seq<nat>, n: nat)
    requires AllVisited(lists, keys, visits, n) && WaitOrVisited(lists, queues, visits) && |visits| == n + |keys|
    requires visited == Ids(Listed(queues, k)) && Remain(queues, after, visited)
    ensures AllVisited(lists, keys + [k], visits + [visited], n) && WaitOrVisited(lists, after, visits + [visited])
  {
    hide Visited, Listed, Ids;
    var more := visits + [visited];
    forall q: Key, d | d in Ids(Listed(lists, q))
      ensures d in Ids(Listed(after, q)) || Visited(more, |more|, d)
      ensures q == k ==> Visited(more, |more|, d)
    {
      if Visited(visits, |visits|, d) {
        VisitedIn(visits, more, |visits|, |more|, d);
      } else if d in visited {
        VisitedLast(visits, visited, d);
      }
    }
    forall j, d | 0 <= j < |keys| && d in Ids(Listed(lists, keys[j]))
      ensures Visited(more, n + j + 1, d)
    {
      VisitedIn(visits, more, n + j + 1, n + j + 1, d);
    }
  }

  // ----- what the visits did -----

  /** The clients, the lists and the queue of unblocked clients. */
  datatype World = World(clients: Clients, lists: Lists, queue: seq<nat>)

  /** One visit to a client, for a key. */
  datatype Event = Event(key: Key, client: nat, visit: Visit, before: World, after: World)

  /** The client's command runs again, unless a module has to look after it. */
  ghost predicate WakesUp(e: Event) {
    && e.client in e.before.clients
    && Wakes(e.before.clients[e.client], e.visit.found) && e.before.clients[e.client].btype != BModule
  }

  ghost function BlocksOf(e: Event): seq<(nat, Block)>
    requires e.client in e.before.clients
  {
    if e.before.clients[e.client].pending then e.visit.outcome.blocks else []
  }

  /** The signals that a visit made. */
  ghost function Made(e: Event): seq<Signal>
    requires e.client in e.before.clients
  {
    var x := e.before.clients[e.client];
    if Wakes(x, e.visit.found) && (x.pending || x.btype == BModule) then e.visit.outcome.signals else []
  }

  function Queued(queue: seq<nat>, c: nat, comes: bool): seq<nat> {
    if comes then queue + [c] else queue
  }

  /** A visited client that wakes has left every list and has run its command, which blocks it again
      or leaves it in the queue, and which blocks others; otherwise nothing changes. */
  ghost predicate Did(e: Event) {
    var (c, w, v) := (e.client, e.before, e.after);
    && c in w.clients && w.clients[c].blocked && v.clients.Keys == w.clients.Keys
    && c in Ids(Listed(w.lists, e.key))
    && var x := w.clients[c];
       if WakesUp(e) then
         && (if x.pending then RanAgain(v.clients[c], FirstFor(BlocksOf(e), c), x)
             else v.clients[c] == Client(false, BNone, map[], false, false, x.queued))
         && v.queue == Queued(w.queue, c, x.pending && FirstFor(BlocksOf(e), c).None? && !x.queued)
         && (forall d :: d in v.clients && d != c ==> BlockedBy(v.clients[d], BlocksOf(e), d, w.clients[d]))
         && forall q: Key :: Ids(Listed(v.lists, q))
                             == Ids(Drop(Listed(w.lists, q), c)) + Newcomers(Freed(w.clients, c), BlocksOf(e), q)
       else
         v == w
  }

  /** A signal that somebody waits for puts its key among those that are served later. */
  ghost predicate AllHeard(signals: seq<Signal>, lists: Lists, clients: Clients, later: seq<Key>) {
    forall i :: 0 <= i < |signals| ==>
      Awaited(lists, clients, signals[i].key, BlockTypeOf(signals[i].objType), signals[i].deleted) ==>
      signals[i].key in later
  }

  /** Some client beside `c` waits. */
  ghost predicate AwaitedBeside(lists: Lists, clients: Clients, c: nat, k: Key, t: BlockType, deleted: bool) {
    && t != BNone
    && (exists d :: d != c && d in Ids(Listed(lists, k)) && d in clients
                    && (clients[d].btype == t || clients[d].btype == BModule))
    && (deleted ==> exists d :: d != c && d in Ids(Listed(lists, k)) && d in Nokey(clients))
  }

  ghost predicate HeardBeside(signals: seq<Signal>, lists: Lists, clients: Clients, c: nat, later: seq<Key>) {
    forall i :: 0 <= i < |signals| ==>
      AwaitedBeside(lists, clients, c, signals[i].key, BlockTypeOf(signals[i].objType), signals[i].deleted) ==>
      signals[i].key in later
  }

  /** A command runs after its client has left the lists; a module's callback runs before. */
  ghost predicate Heard(e: Event, later: seq<Key>)
    requires e.client in e.before.clients
  {
    if e.before.clients[e.client].btype == BModule then AllHeard(Made(e), e.before.lists, e.before.clients, later)
    else HeardBeside(Made(e), e.before.lists, e.before.clients, e.client, later)
  }

  predicate HasKey(signals: seq<Signal>, k: Key) {
    exists i :: 0 <= i < |signals| && signals[i].key == k
  }

  /** Only signalled keys become ready. */
  ghost predicate OnlySignalled(signals: seq<Signal>, before: seq<Key>, after: seq<Key>) {
    before <= after && forall j :: |before| <= j < |after| ==> HasKey(signals, after[j])
  }

  lemma NothingSignalled(signals: seq<Signal>, lists: Lists, clients: Clients, pending: seq<Key>, keys: seq<Key>)
    ensures AllHeard(signals[..0], lists, clients, pending + keys) && OnlySignalled(signals[..0], keys, keys)
  {
  }

  lemma NothingHeard(lists: Lists, clients: Clients, c: nat, later: seq<Key>)
    ensures AllHeard([], lists, clients, later) && HeardBeside([], lists, clients, c, later)
  {
  }

  lemma NoNewKeys(keys: seq<Key>)
    ensures forall signals :: OnlySignalled(signals, keys, keys)
  {
  }

  lemma OneMoreSignal(signals: seq<Signal>, j: nat, lists: Lists, clients: Clients, pending: seq<Key>, first: seq<Key>,
                      before: seq<Key>, after: seq<Key>)
    requires j < |signals|
    requires AllHeard(signals[..j], lists, clients, pending + before) && OnlySignalled(signals[..j], first, before)
    requires var s := signals[j];
             && (after == before || after == before + [s.key])
             && (Awaited(lists, clients, s.key, BlockTypeOf(s.objType), s.deleted) ==> s.key in pending + after)
    ensures AllHeard(signals[..j + 1], lists, clients, pending + after) && OnlySignalled(signals[..j + 1], first, after)
  {
    hide Awaited, BlockTypeOf;
    StillListed(pending, before, after);
    assert forall i :: 0 <= i < j ==> signals[..j + 1][i] == signals[..j][i];
    forall i | |first| <= i < |after|
      ensures HasKey(signals[..j + 1], after[i])
    {
      if i < |before| {
        assert HasKey(signals[..j], before[i]);
      } else {
        assert signals[..j + 1][j].key == after[i];
      }
    }
  }

  lemma HeardSame(signals: seq<Signal>, lists: Lists, was: Clients, idle: Clients, c: nat, later: seq<Key>)
    requires c in was && idle == was[c := was[c].(pending := false)] && AllHeard(signals, lists, idle, later)
    ensures AllHeard(signals, lists, was, later)
  {
    hide Ids, Listed, BlockTypeOf;
    assert Nokey(idle) == Nokey(was);
    forall k, t, deleted | Awaited(lists, was, k, t, deleted)
      ensures Awaited(lists, idle, k, t, deleted)
    {
      var d :| d in Ids(Listed(lists, k)) && d in was && (was[d].btype == t || was[d].btype == BModule);
      assert d in idle && idle[d].btype == was[d].btype;
    }
  }

  lemma BesideHeard(signals: seq<Signal>, was: Clients, lists: Lists, mid: Clients, queues: Lists, c: nat,
                    later: seq<Key>)
    requires c in was && c in mid && mid == was[c := mid[c]]
    requires forall q: Key :: Listed(queues, q) == Drop(Listed(lists, q), c)
    requires AllHeard(signals, queues, mid, later)
    ensures HeardBeside(signals, lists, was, c, later)
  {
    hide Ids, Listed, BlockTypeOf, Drop, Awaited, AwaitedBeside;
    forall i | 0 <= i < |signals|
               && AwaitedBeside(lists, was, c, signals[i].key, BlockTypeOf(signals[i].objType), signals[i].deleted)
      ensures signals[i].key in later
    {
      BesideAwaited(was, lists, mid, queues, c, signals[i].key, BlockTypeOf(signals[i].objType), signals[i].deleted);
    }
  }

  lemma BesideAwaited(was: Clients, lists: Lists, mid: Clients, queues: Lists, c: nat, k: Key, t: BlockType,
                      deleted: bool)
    requires c in was && c in mid && mid == was[c := mid[c]] && Listed(queues, k) == Drop(Listed(lists, k), c)
    requires AwaitedBeside(lists, was, c, k, t, deleted)
    ensures Awaited(queues, mid, k, t, deleted)
  {
    hide Ids, Listed, Drop;
    var (l, q) := (Listed(lists, k), Listed(queues, k));
    var d :| d != c && d in Ids(l) && d in was && (was[d].btype == t || was[d].btype == BModule);
    StaysInPrefix(l, q, c, d);
    assert d in Ids(q) && d in mid && mid[d] == was[d];
    if deleted {
      var n :| n != c && n in Ids(l) && n in Nokey(was);
      StaysInPrefix(l, q, c, n);
      assert n in Ids(q) && n in Nokey(mid);
    }
  }

  lemma NobodyNew()
    ensures forall clients, q: Key :: Newcomers(clients, [], q) == []
  {
  }

  /** The visits follow each other. */
  ghost predicate Trace(log: seq<Event>, from: World, to: World)
    decreases |log|
  {
    if log == [] then from == to
    else
      var e := log[|log| - 1];
      Did(e) && e.after == to && Trace(log[..|log| - 1], from, e.before)
  }

  /** The visits of one pass: to these clients in this order, each finding what the script says. */
  ghost predicate LogOf(log: seq<Event>, k: Key, visited: seq<nat>, script: seq<Visit>, start: nat) {
    && |log| == |visited|
    && forall i :: 0 <= i < |log| ==>
         && log[i].key == k && log[i].client == visited[i]
         && log[i].visit == if start + i < |script| then script[start + i] else Visit(None, Outcome([], []))
  }

  ghost predicate Sound(log: seq<Event>) {
    forall i :: 0 <= i < |log| ==> log[i].client in log[i].before.clients
  }

  ghost predicate LogHeard(log: seq<Event>, later: seq<Key>) {
    Sound(log) && forall i :: 0 <= i < |log| ==> Heard(log[i], later)
  }

  /** One of the visits signalled the key. */
  ghost predicate SignalledIn(log: seq<Event>, k: Key) {
    exists i :: 0 <= i < |log| && log[i].client in log[i].before.clients && HasKey(Made(log[i]), k)
  }

  ghost predicate KeysFrom(log: seq<Event>, before: seq<Key>, after: seq<Key>) {
    before <= after && forall j :: |before| <= j < |after| ==> SignalledIn(log, after[j])
  }

  function Least(a: nat, b: nat): nat {
    if a < b then a else b
  }

  lemma NothingLogged(w: World, k: Key, script: seq<Visit>, start: nat, keys: seq<Key>, later: seq<Key>)
    ensures Trace([], w, w) && LogOf([], k, [], script, start) && LogHeard([], later) && KeysFrom([], keys, keys)
  {
  }

  lemma OneMoreEvent(log: seq<Event>, e: Event, from: World, k: Key, visited: seq<nat>, script: seq<Visit>, start: nat,
                     pending: seq<Key>, first: seq<Key>, before: seq<Key>, after: seq<Key>)
    requires Did(e) && Trace(log, from, e.before) && LogOf(log, k, visited, script, start) && e.key == k
    requires e.visit == VisitAt(script, Least(start + |visited|, |script|)) && before <= after
    requires LogHeard(log, pending + before) && Heard(e, pending + after)
    requires KeysFrom(log, first, before) && OnlySignalled(Made(e), before, after)
    ensures Trace(log + [e], from, e.after) && LogOf(log + [e], k, visited + [e.client], script, start)
    ensures LogHeard(log + [e], pending + after) && KeysFrom(log + [e], first, after)
  {
    hide Did, Heard, Made, HasKey;
    var more := log + [e];
    assert more[..|more| - 1] == log;
    StillListed(pending, before, after);
    DidOf(e);
    forall i | 0 <= i < |log|
      ensures Heard(more[i], pending + after)
    {
      HeardMore(log[i], pending + before, pending + after);
    }
    forall j | |first| <= j < |after|
      ensures SignalledIn(more, after[j])
    {
      if j < |before| {
        assert SignalledIn(log, before[j]);
        SignalledMore(log, more, before[j]);
      } else {
        assert more[|log|] == e;
      }
    }
  }

  lemma NothingMade(e: Event, before: seq<Key>, after: seq<Key>)
    requires e.client in e.before.clients && OnlySignalled(Made(e), before, after)
    ensures e.visit == NOTHING ==> after == before
  {
    assert |before| < |after| ==> HasKey(Made(e), after[|before|]);
  }

  lemma DidOf(e: Event)
    requires Did(e)
    ensures e.client in e.before.clients && e.client in e.after.clients
  {
  }

  lemma HeardMore(e: Event, a: seq<Key>, b: seq<Key>)
    requires e.client in e.before.clients && Heard(e, a) && forall k :: k in a ==> k in b
    ensures Heard(e, b)
  {
    hide Made, Awaited, AwaitedBeside;
  }

  lemma SignalledMore(log: seq<Event>, more: seq<Event>, k: Key)
    requires log <= more && SignalledIn(log, k)
    ensures SignalledIn(more, k)
  {
    hide Made, HasKey;
    var i :| 0 <= i < |log| && log[i].client in log[i].before.clients && HasKey(Made(log[i]), k);
    assert more[i] == log[i];
  }

  /** The visits that one ready key led to. */
  datatype Turn = Turn(key: Key, visited: seq<nat>, start: nat, log: seq<Event>, before: World)

  ghost predicate TurnOk(t: Turn, script: seq<Visit>, to: World) {
    && Trace(t.log, t.before, to) && LogOf(t.log, t.key, t.visited, script, t.start)
    && t.visited == Ids(Listed(t.before.lists, t.key))
  }

  /** Turn after turn, from one state to another; `at` visits of the script are used up. */
  ghost predicate HistoryTo(turns: seq<Turn>, script: seq<Visit>, from: World, to: World, at: nat)
    decreases |turns|
  {
    if turns == [] then from == to && at == 0
    else
      var t := turns[|turns| - 1];
      && TurnOk(t, script, to) && at == Least(t.start + |t.visited|, |script|)
      && HistoryTo(turns[..|turns| - 1], script, from, t.before, t.start)
  }

  ghost predicate History(turns: seq<Turn>, script: seq<Visit>, from: World, to: World) {
    exists at :: HistoryTo(turns, script, from, to, at)
  }

  ghost predicate Names(turns: seq<Turn>, served: seq<Key>, visits: seq<seq<nat>>) {
    && |turns| == |served| && |turns| == |visits|
    && forall j :: 0 <= j < |turns| ==> turns[j].key == served[j] && turns[j].visited == visits[j]
  }

  /** A signal that somebody waits for leads to a later turn of its key. */
  ghost predicate Later(turns: seq<Turn>, served: seq<Key>, rest: seq<Key>) {
    |turns| == |served| && forall j :: 0 <= j < |turns| ==> LogHeard(turns[j].log, served[j + 1..] + rest)
  }

  ghost predicate Signalled(turns: seq<Turn>, k: Key) {
    exists j :: 0 <= j < |turns| && SignalledIn(turns[j].log, k)
  }

  ghost predicate AllSignalled(turns: seq<Turn>, keys: seq<Key>) {
    forall i :: 0 <= i < |keys| ==> Signalled(turns, keys[i])
  }

  /** After the first `n`, every turn was signalled in one before it. */
  ghost predicate Origins(turns: seq<Turn>, served: seq<Key>, n: nat) {
    |turns| == |served| && forall j :: n <= j < |served| ==> Signalled(turns[..j], served[j])
  }

  lemma NoTurns(w: World, script: seq<Visit>, keys: seq<Key>)
    ensures HistoryTo([], script, w, w, 0) && Names([], [], []) && Later([], [], keys) && Origins([], [], |keys|)
    ensures History([], script, w, w)
  {
    assert HistoryTo([], script, w, w, 0);
  }

  lemma NoneSignalled(turns: seq<Turn>)
    ensures AllSignalled(turns, [])
  {
  }

  lemma SignalledBy(turns: seq<Turn>, more: seq<Turn>, k: Key)
    requires turns <= more && Signalled(turns, k)
    ensures Signalled(more, k)
  {
    hide SignalledIn;
    var j :| 0 <= j < |turns| && SignalledIn(turns[j].log, k);
    assert more[j] == turns[j];
  }

  lemma OriginsMore(turns: seq<Turn>, more: seq<Turn>, served: seq<Key>, keys: seq<Key>, visits: seq<seq<nat>>, n: nat)
    requires Origins(turns, served, n) && turns <= more && Names(more, served + keys, visits)
    requires (served == [] && |keys| == n) || AllSignalled(turns, keys)
    ensures Origins(more, served + keys, n)
  {
    hide SignalledIn, Signalled;
    forall j | n <= j < |served + keys|
      ensures Signalled(more[..j], (served + keys)[j])
    {
      if j < |served| {
        assert more[..j] == turns[..j];
      } else {
        assert (served + keys)[j] == keys[j - |served|];
        SignalledBy(turns, more[..j], keys[j - |served|]);
      }
    }
  }

  /** One more key served. */
  lemma TurnDone(turns: seq<Turn>, t: Turn, script: seq<Visit>, from: World, to: World, served: seq<Key>,
                 visits: seq<seq<nat>>, l: seq<Key>, before: seq<Key>, after: seq<Key>)
    requires HistoryTo(turns, script, from, t.before, t.start) && TurnOk(t, script, to)
    requires Names(turns, served, visits) && l != [] && t.key == l[0]
    requires Later(turns, served, l + before) && LogHeard(t.log, l[1..] + after)
    requires AllSignalled(turns, before) && KeysFrom(t.log, before, after)
    ensures HistoryTo(turns + [t], script, from, to, Least(t.start + |t.visited|, |script|))
    ensures Names(turns + [t], served + [t.key], visits + [t.visited])
    ensures Later(turns + [t], served + [t.key], l[1..] + after) && AllSignalled(turns + [t], after)
  {
    hide TurnOk, LogHeard, SignalledIn, Signalled, AllIn;
    var more, names := turns + [t], served + [t.key];
    assert more[..|more| - 1] == turns;
    forall j | 0 <= j < |more|
      ensures LogHeard(more[j].log, names[j + 1..] + (l[1..] + after))
    {
      if j < |turns| {
        RestSame(served, j, l, before, after);
        LogHeardMore(turns[j].log, served[j + 1..] + (l + before), names[j + 1..] + (l[1..] + after));
      } else {
        assert names[j + 1..] + (l[1..] + after) == l[1..] + after;
      }
    }
    forall i | 0 <= i < |after|
      ensures Signalled(more, after[i])
    {
      if i < |before| {
        SignalledBy(turns, more, before[i]);
      } else {
        SignalledLast(turns, t, after[i]);
      }
    }
  }

  lemma SignalledLast(turns: seq<Turn>, t: Turn, k: Key)
    requires SignalledIn(t.log, k)
    ensures Signalled(turns + [t], k)
  {
    assert (turns + [t])[|turns|] == t;
  }

  lemma RestSame(served: seq<Key>, j: nat, l: seq<Key>, before: seq<Key>, after: seq<Key>)
    requires j < |served| && l != [] && before <= after
    ensures AllIn(served[j + 1..] + (l + before), (served + [l[0]])[j + 1..] + (l[1..] + after))
  {
    assert l == [l[0]] + l[1..] && after == before + after[|before|..];
    assert (served + [l[0]])[j + 1..] == served[j + 1..] + [l[0]];
  }

  ghost predicate AllIn(a: seq<Key>, b: seq<Key>) {
    forall k :: k in a ==> k in b
  }

  lemma LogHeardMore(log: seq<Event>, a: seq<Key>, b: seq<Key>)
    requires LogHeard(log, a) && AllIn(a, b)
    ensures LogHeard(log, b)
  {
    hide Heard;
    forall i | 0 <= i < |log|
      ensures Heard(log[i], b)
    {
      HeardMore(log[i], a, b);
    }
  }

  // ----- who is free at the end -----

  /** A client that is not blocked and waits in the queue of unblocked clients. */
  const IDLE := Client(false, BNone, map[], false, false, true)

  /** An object of this type is what a client blocked for this reason waits for. */
  predicate Serves(o: ObjType, t: BlockType) {
    (o.OList? && t.BList?) || (o.OZset? && t.BZset?) || (o.OStream? && t.BStream?)
  }

  /** Whom an object wakes, and that a string, a set or a hash signals nothing. */
  lemma WakesExactly(c: Client, found: Option<ObjType>)
    requires OnKeys(c.btype)
    ensures Wakes(c, found) <==> c.nokey || (found.Some? && (c.btype == BModule || Serves(found.value, c.btype)))
    ensures found.Some? ==> (BlockTypeOf(found.value) == BNone <==> found.value in {OString, OSet, OHash})
  {
    if found.Some? {
      match found.value {
        case OList => assert BlockTypeOf(OList) == BList;
        case OZset => assert BlockTypeOf(OZset) == BZset;
        case OStream => assert BlockTypeOf(OStream) == BStream;
        case _ =>
      }
    }
  }

  /** Every visit to the client finds what it waits for, and no command blocks it. */
  ghost predicate Content(log: seq<Event>, c: nat, t: BlockType) {
    forall i :: 0 <= i < |log| ==>
      && FirstFor(log[i].visit.outcome.blocks, c).None?
      && (log[i].client == c ==> log[i].visit.found.Some? && Serves(log[i].visit.found.value, t))
  }

  ghost predicate Satisfied(turns: seq<Turn>, c: nat, x: Client) {
    x.pending && forall j :: 0 <= j < |turns| ==> Content(turns[j].log, c, x.btype)
  }

  ghost predicate LeftAll(clients: Clients, lists: Lists, c: nat) {
    c in clients && clients[c] == IDLE && forall q: Key :: c !in Ids(Listed(lists, q))
  }

  /** The client is as it was, or free. */
  ghost predicate AsWasOrIdle(w: World, c: nat, x: Client) {
    c in w.clients && (w.clients[c] == x || w.clients[c] == IDLE)
  }

  lemma EventFrees(e: Event, c: nat, x: Client)
    requires Did(e) && AsWasOrIdle(e.before, c, x) && x.pending
    requires FirstFor(e.visit.outcome.blocks, c).None?
    requires e.client == c ==> e.visit.found.Some? && Serves(e.visit.found.value, x.btype)
    ensures AsWasOrIdle(e.after, c, x)
    ensures e.client == c || e.before.clients[c] == IDLE ==> e.after.clients[c] == IDLE
  {
    hide Listed, Ids, Drop, Newcomers;
    if WakesUp(e) && e.client != c {
      assert BlockedBy(e.after.clients[c], BlocksOf(e), c, e.before.clients[c]);
    }
  }

  lemma {:induction false} TraceFrees(log: seq<Event>, from: World, to: World, c: nat, x: Client)
    requires Trace(log, from, to) && AsWasOrIdle(from, c, x) && x.pending && Content(log, c, x.btype)
    ensures AsWasOrIdle(to, c, x) && (from.clients[c] == IDLE ==> to.clients[c] == IDLE)
    ensures (exists i :: 0 <= i < |log| && log[i].client == c) ==> to.clients[c] == IDLE
    decreases |log|
  {
    hide Did, Serves, FirstFor;
    if log != [] {
      var n := |log| - 1;
      var e := log[n];
      assert forall i :: 0 <= i < n ==> log[..n][i] == log[i];
      TraceFrees(log[..n], from, e.before, c, x);
      EventFrees(e, c, x);
    }
  }

  lemma {:induction false} HistoryFrees(turns: seq<Turn>, script: seq<Visit>, from: World, to: World, at: nat, c: nat,
                                        x: Client)
    requires HistoryTo(turns, script, from, to, at) && AsWasOrIdle(from, c, x) && Satisfied(turns, c, x)
    ensures AsWasOrIdle(to, c, x) && (from.clients[c] == IDLE ==> to.clients[c] == IDLE)
    ensures (exists j :: 0 <= j < |turns| && c in turns[j].visited) ==> to.clients[c] == IDLE
    decreases |turns|
  {
    hide Content, Trace, AsWasOrIdle, Ids, Listed;
    if turns != [] {
      var n := |turns| - 1;
      var t := turns[n];
      assert forall j :: 0 <= j < n ==> turns[..n][j] == turns[j];
      HistoryFrees(turns[..n], script, from, t.before, t.start, c, x);
      TraceFrees(t.log, t.before, to, c, x);
      if c in t.visited {
        var i :| 0 <= i < |t.visited| && t.visited[i] == c;
        assert t.log[i].client == c;
      }
    }
  }

  lemma AllSatisfied(turns: seq<Turn>, script: seq<Visit>, from: World, to: World, served: seq<Key>,
                     visits: seq<seq<nat>>, keys: seq<Key>, at: nat)
    requires HistoryTo(turns, script, from, to, at) && Names(turns, served, visits)
    requires AllVisited(from.lists, keys, visits, 0)
    requires Indexed(from.lists, from.clients) && ClientsOk(from.clients)
    requires Indexed(to.lists, to.clients) && ClientsOk(to.clients)
    ensures forall k: Key, c :: k in keys && c in Ids(Listed(from.lists, k)) ==>
              c in from.clients && (Satisfied(turns, c, from.clients[c]) ==> LeftAll(to.clients, to.lists, c))
  {
    hide Listed, Ids, Indexed, ClientsOk, HistoryTo, Satisfied;
    forall k: Key, c | k in keys && c in Ids(Listed(from.lists, k))
      ensures c in from.clients && (Satisfied(turns, c, from.clients[c]) ==> LeftAll(to.clients, to.lists, c))
    {
      ListedIsBlocked(from.lists, from.clients, k, c);
      var j :| 0 <= j < |keys| && keys[j] == k;
      assert Visited(visits, 0 + j + 1, c);
      var i :| 0 <= i < j + 1 && i < |visits| && c in visits[i];
      assert c in turns[i].visited;
      if Satisfied(turns, c, from.clients[c]) {
        HistoryFrees(turns, script, from, to, at, c, from.clients[c]);
        forall q: Key
          ensures c !in Ids(Listed(to.lists, q))
        {
          if c in Ids(Listed(to.lists, q)) {
            ListedIsBlocked(to.lists, to.clients, q, c);
          }
        }
      }
    }
  }

  // ----- blocking several clients -----

  function Freed(clients: Clients, c: nat): Clients
    requires c in clients
  {
    clients[c := clients[c].(blocked := false)]
  }

  /** A client that was not blocked has been blocked by the command of a visit. */
  ghost predicate Joins(visit: Visit, d: nat, x: Client, c: Client) {
    !x.blocked && FirstFor(visit.outcome.blocks, d).Some? && BlockedFor(c, FirstFor(visit.outcome.blocks, d).value, x)
  }

  /** ... by the command of one of the visits. */
  ghost predicate JoinsAny(script: seq<Visit>, start: nat, at: nat, d: nat, x: Client, c: Client) {
    exists j :: start <= j < at && j < |script| && Joins(script[j], d, x, c)
  }

  lemma NothingJoins(d: nat, x: Client, c: Client)
    ensures !Joins(NOTHING, d, x, c)
  {
  }

  /** Of the clients that are not visited, those that are blocked are left alone, and the others
      are left alone or blocked by a command. */
  ghost predicate Bystanders(script: seq<Visit>, start: nat, at: nat, was: Clients, clients: Clients,
                             visited: seq<nat>) {
    && clients.Keys == was.Keys
    && forall d :: d in clients && d !in visited ==>
         clients[d] == was[d] || JoinsAny(script, start, at, d, was[d], clients[d])
  }

  /** Whoever is not visited stays in every list. */
  ghost predicate Remain(lists: Lists, after: Lists, visited: seq<nat>) {
    forall q: Key, d :: d in Ids(Listed(lists, q)) && d !in visited ==> d in Ids(Listed(after, q))
  }

  function VisitAt(script: seq<Visit>, at: nat): Visit {
    if at < |script| then script[at] else NOTHING
  }

  lemma NobodyYet(script: seq<Visit>, start: nat, clients: Clients, lists: Lists)
    ensures Bystanders(script, start, start, clients, clients, [])
    ensures Remain(lists, lists, []) && forall visited :: Remain(lists, lists, visited)
  {
  }

  lemma RemainMore(lists: Lists, queues: Lists, after: Lists, visited: seq<nat>, receiver: nat)
    requires Remain(lists, queues, visited) && Remain(queues, after, [receiver])
    ensures Remain(lists, after, visited + [receiver])
  {
    hide Listed, Ids;
  }

  lemma JoinsMore(script: seq<Visit>, start: nat, at: nat, was: Clients, before: Clients, clients: Clients,
                  visited: seq<nat>, receiver: nat)
    requires start <= at && Bystanders(script, start, at, was, before, visited) && clients.Keys == before.Keys
    requires forall d :: d in clients && d != receiver ==>
               clients[d] == before[d] || Joins(VisitAt(script, at), d, before[d], clients[d])
    ensures Bystanders(script, start, if at < |script| then at + 1 else at, was, clients, visited + [receiver])
  {
    hide Joins;
    forall d | d in clients && d !in visited + [receiver]
      ensures clients[d] == was[d]
              || JoinsAny(script, start, if at < |script| then at + 1 else at, d, was[d], clients[d])
    {
      NothingJoins(d, before[d], clients[d]);
      if clients[d] != before[d] {
        JoinsFree(VisitAt(script, at), d, before[d], clients[d]);
        if before[d] != was[d] {
          JoinsBlocked(script, start, at, d, was[d], before[d]);
        }
      }
    }
  }

  lemma JoinsFree(visit: Visit, d: nat, x: Client, c: Client)
    requires Joins(visit, d, x, c)
    ensures !x.blocked && c.blocked
  {
  }

  lemma JoinsBlocked(script: seq<Visit>, start: nat, at: nat, d: nat, x: Client, c: Client)
    requires JoinsAny(script, start, at, d, x, c)
    ensures c.blocked
  {
  }

  lemma DidToOthers(e: Event)
    requires Did(e)
    ensures e.after.clients.Keys == e.before.clients.Keys
    ensures forall d :: d in e.after.clients && d != e.client ==>
              e.after.clients[d] == e.before.clients[d]
              || Joins(e.visit, d, e.before.clients[d], e.after.clients[d])
  {
    if WakesUp(e) {
      forall d | d in e.after.clients && d != e.client
        ensures e.after.clients[d] == e.before.clients[d]
                || Joins(e.visit, d, e.before.clients[d], e.after.clients[d])
      {
        assert BlockedBy(e.after.clients[d], BlocksOf(e), d, e.before.clients[d]);
      }
    }
  }

  lemma NotBlockedBy(clients: Clients)
    ensures forall d :: d in clients ==> BlockedBy(clients[d], [], d, clients[d])
  {
  }

  /** Unblocking a client and taking its pending flag away makes it free, and nothing else. */
  lemma FreedSame(was: Clients, mid: Clients, c: nat, blocks: seq<(nat, Block)>)
    requires c in was && c in mid && mid == was[c := mid[c]] && !mid[c].blocked
    ensures forall x: Key :: Newcomers(mid, blocks, x) == Newcomers(Freed(was, c), blocks, x)
    ensures forall d :: d != c ==> (d in mid <==> d in was) && (d in mid ==> mid[d] == was[d])
  {
    hide Newcomers;
    NewcomersSame(Freed(was, c), mid, blocks);
  }

  lemma NewcomersSame(a: Clients, b: Clients, blocks: seq<(nat, Block)>)
    requires forall d :: Free(a, d) == Free(b, d)
    ensures forall x: Key :: Newcomers(a, blocks, x) == Newcomers(b, blocks, x)
  {
    hide Newcomers;
    forall x: Key
      ensures Newcomers(a, blocks, x) == Newcomers(b, blocks, x)
    {
      NewcomersSameOn(a, b, blocks, x);
    }
  }

  lemma {:induction false} NewcomersSameOn(a: Clients, b: Clients, blocks: seq<(nat, Block)>, k: Key)
    requires forall d :: Free(a, d) == Free(b, d)
    ensures Newcomers(a, blocks, k) == Newcomers(b, blocks, k)
    decreases |blocks|
  {
    if blocks != [] {
      var n := |blocks| - 1;
      NewcomersSameOn(a, b, blocks[..n], k);
      assert Free(a, blocks[n].0) == Free(b, blocks[n].0);
    }
  }

  lemma RanOrNot(c: Client, blocks: seq<(nat, Block)>, id: nat, x: Client)
    requires BlockedBy(c, blocks, id, x) && x == Client(false, BNone, map[], false, false, x.queued)
    ensures if FirstFor(blocks, id).Some? then c.blocked && BlockedFor(c, FirstFor(blocks, id).value, x) else c == x
  {
  }

  lemma BlockNone(clients: Clients, lists: Lists, blocks: seq<(nat, Block)>)
    ensures forall d :: d in clients ==> BlockedBy(clients[d], blocks[..0], d, clients[d])
    ensures forall x: Key :: Ids(Listed(lists, x)) == Ids(Listed(lists, x)) + Newcomers(clients, blocks[..0], x)
  {
    assert blocks[..0] == [];
  }

  lemma FirstForNext(blocks: seq<(nat, Block)>, i: nat, d: nat)
    requires i < |blocks|
    ensures FirstFor(blocks[..i + 1], d) == if FirstFor(blocks[..i], d).Some? then FirstFor(blocks[..i], d)
                                            else if blocks[i].0 == d then Some(blocks[i].1) else None
  {
    assert blocks[..i + 1][..i] == blocks[..i];
  }

  lemma BlockedFlag(c: Client, blocks: seq<(nat, Block)>, id: nat, x: Client)
    requires BlockedBy(c, blocks, id, x)
    ensures c.blocked <==> x.blocked || FirstFor(blocks, id).Some?
    ensures !c.blocked ==> c == x
  {
  }

  /** One round of blocking: the client of the next block, if it is free. */
  lemma BlockOneMore(was: Clients, before: Clients, after: Clients, blocks: seq<(nat, Block)>, i: nat)
    requires i < |blocks| && before.Keys == was.Keys && after.Keys == was.Keys
    requires forall d :: d in before ==> BlockedBy(before[d], blocks[..i], d, was[d])
    requires var (c, b) := blocks[i];
             if Free(before, c) then after == before[c := after[c]] && BlockedFor(after[c], b, before[c])
             else after == before
    ensures forall d :: d in after ==> BlockedBy(after[d], blocks[..i + 1], d, was[d])
  {
    hide FirstFor, BlockedFor;
    var (c, b) := blocks[i];
    forall d | d in after
      ensures BlockedBy(after[d], blocks[..i + 1], d, was[d])
    {
      assert BlockedBy(before[d], blocks[..i], d, was[d]);
      FirstForNext(blocks, i, d);
      BlockedFlag(before[d], blocks[..i], d, was[d]);
    }
  }

  lemma NewcomersNext(was: Clients, before: Clients, blocks: seq<(nat, Block)>, i: nat)
    requires i < |blocks| && before.Keys == was.Keys
    requires forall d :: d in before ==> BlockedBy(before[d], blocks[..i], d, was[d])
    ensures var (c, b) := blocks[i];
            forall x: Key :: Newcomers(was, blocks[..i + 1], x)
                             == Newcomers(was, blocks[..i], x) + if Free(before, c) && x in b.keys then [c] else []
  {
    hide FirstFor, BlockedFor;
    var (c, b) := blocks[i];
    assert blocks[..i + 1][..i] == blocks[..i];
    if c in before {
      BlockedFlag(before[c], blocks[..i], c, was[c]);
    }
  }

  lemma ListsNext(lists: Lists, queues: Lists, after: Lists, was: Clients, before: Clients, blocks: seq<(nat, Block)>,
                  i: nat)
    requires i < |blocks|
    requires forall x: Key :: Listed(lists, x) <= Listed(queues, x) && Listed(queues, x) <= Listed(after, x)
    requires forall x: Key :: Ids(Listed(queues, x)) == Ids(Listed(lists, x)) + Newcomers(was, blocks[..i], x)
    requires var (c, b) := blocks[i];
             && (forall x: Key ::
                   Ids(Listed(after, x)) == Ids(Listed(queues, x)) + if Free(before, c) && x in b.keys then [c] else [])
             && forall x: Key :: Newcomers(was, blocks[..i + 1], x)
                                 == Newcomers(was, blocks[..i], x) + if Free(before, c) && x in b.keys then [c] else []
    ensures forall x: Key :: Listed(lists, x) <= Listed(after, x)
    ensures forall x: Key :: Ids(Listed(after, x)) == Ids(Listed(lists, x)) + Newcomers(was, blocks[..i + 1], x)
  {
    hide Newcomers, Ids, Listed, Free;
    var (c, b) := blocks[i];
    forall x: Key
      ensures Listed(lists, x) <= Listed(after, x)
      ensures Ids(Listed(after, x)) == Ids(Listed(lists, x)) + Newcomers(was, blocks[..i + 1], x)
    {
      var more := if Free(before, c) && x in b.keys then [c] else [];
      assert Ids(Listed(lists, x)) + Newcomers(was, blocks[..i], x) + more
          == Ids(Listed(lists, x)) + (Newcomers(was, blocks[..i], x) + more);
    }
  }

  /** Whoever is not the client of the visit stays in every list. */
  lemma StillWaiting(lists: Lists, after: Lists, c: nat)
    requires after == lists || forall q: Key :: Drop(Listed(lists, q), c) <= Listed(after, q)
    ensures Remain(lists, after, [c])
  {
    hide Drop, Listed, Ids;
    if after != lists {
      forall q: Key, d | d in Ids(Listed(lists, q)) && d != c
        ensures d in Ids(Listed(after, q))
      {
        StaysInPrefix(Listed(lists, q), Listed(after, q), c, d);
      }
    }
  }

  lemma StaysInPrefix(l: seq<Entry>, after: seq<Entry>, c: nat, d: nat)
    requires Drop(l, c) <= after && d in Ids(l) && d != c
    ensures d in Ids(after)
  {
    hide Drop;
    var i :| 0 <= i < |l| && Ids(l)[i] == d;
    DropContents(l, c);
    assert l[i] in l && l[i] in Drop(l, c);
    var j :| 0 <= j < |Drop(l, c)| && Drop(l, c)[j] == l[i];
    assert Ids(after)[j] == after[j].client;
  }

  lemma DistinctIds(lists: Lists, counts: map<Key, nat>, clients: Clients, n: nat, k: Key)
    requires IndexOk(lists, counts, clients, n)
    ensures NoDuplicates(Ids(Listed(lists, k)))
  {
    assert ListOk(Listed(lists, k), k, clients);
  }

  lemma NoneReady(ready: set<Key>)
    requires ReadyOk(ready, [])
    ensures ready == {}
  {
  }

  lemma ReadyLess(ready: set<Key>, l: seq<Key>, more: seq<Key>)
    requires ReadyOk(ready, l + more) && l != []
    ensures ReadyOk(ready - {l[0]}, l[1..] + more)
  {
    var all := l + more;
    assert l[1..] + more == all[1..];
    assert all == [all[0]] + all[1..];
  }

  lemma TakeServed(before: seq<Key>, all: seq<Key>, i: nat)
    requires i < |all|
    ensures before + all[..i + 1] == before + all[..i] + [all[i]] && all[i..][1..] == all[i + 1..]
            && all[i..][0] == all[i]
  {
  }

  /** In a pass that has visited the first `i` initial clients, some of them are kept, the rest of
      the list is as it was, and others may have come behind it. */
  predicate InPass(l: seq<Entry>, cursor: Option<nat>, initial: seq<Entry>, i: nat, kept: seq<Entry>,
                   added: seq<Entry>) {
    i <= |initial| && l == kept + initial[i..] + added && CursorOk(cursor, initial, i, added)
  }

  lemma PassEnd(lists: Lists, counts: map<Key, nat>, clients: Clients, n: nat, k: Key, cursor: Option<nat>,
                initial: seq<Entry>, i: nat, kept: seq<Entry>, added: seq<Entry>)
    requires IndexOk(lists, counts, clients, n) && InPass(Listed(lists, k), cursor, initial, i, kept, added)
    requires i == |initial| || cursor.None?
    ensures i == |initial| && initial[..i] == initial
    ensures cursor.Some? ==> Where(Listed(lists, k), cursor.value) < |Listed(lists, k)|
  {
    hide IndexOk, Where, Listed;
    if cursor.Some? {
      Followed(lists, counts, clients, n, k, cursor, initial, i, kept, added);
    }
  }

  /** The test of handleClientsBlockedOnKey. */
  predicate Wakes(c: Client, found: Option<ObjType>) {
    || (found.Some? && c.btype == BlockTypeOf(found.value))
    || (found.Some? && c.btype == BModule)
    || c.nokey
  }

  /** Where a node stands in a list. */
  function Where(l: seq<Entry>, node: nat): (i: nat)
    ensures i <= |l| && (i < |l| ==> l[i].node == node) && forall j :: 0 <= j < i ==> l[j].node != node
  {
    if l == [] then 0
    else
      var i := Where(l[..|l| - 1], node);
      if i < |l| - 1 then i else if l[|l| - 1].node == node then |l| - 1 else |l|
  }

  /** listNext's step: the node must be in the list. */
  function NextOf(l: seq<Entry>, node: nat): Option<nat>
    requires Where(l, node) < |l|
  {
    if Where(l, node) + 1 < |l| then Some(l[Where(l, node) + 1].node) else None
  }

  /** The iterator points at the next initial client, or behind them. */
  predicate CursorOk(cursor: Option<nat>, initial: seq<Entry>, i: nat, added: seq<Entry>)
    requires i <= |initial|
  {
    if i < |initial| then cursor == Some(initial[i].node)
    else cursor == None || (added != [] && cursor == Some(added[0].node))
  }

  lemma PassStart(lists: Lists, counts: map<Key, nat>, clients: Clients, n: nat, k: Key)
    requires IndexOk(lists, counts, clients, n)
    ensures k !in lists ==> Ids(Listed(lists, k)) == []
    ensures k in lists ==> var l := lists[k];
                           l != [] && Ids(l[..0]) == [] && Listed(lists, k) == l
                             && InPass(l, Some(l[0].node), l, 0, [], [])
  {
  }

  /** The node that the iterator follows is in the list, and what comes next. */
  lemma Followed(lists: Lists, counts: map<Key, nat>, clients: Clients, n: nat, k: Key, cursor: Option<nat>,
                 initial: seq<Entry>, i: nat, kept: seq<Entry>, added: seq<Entry>)
    requires IndexOk(lists, counts, clients, n) && i <= |initial| && Listed(lists, k) == kept + initial[i..] + added
    requires CursorOk(cursor, initial, i, added) && cursor.Some?
    ensures var l := Listed(lists, k);
            && DistinctClients(l) && Where(l, cursor.value) == |kept| < |l|
            && (i < |initial| ==> l[|kept|] == initial[i] && CursorOk(NextOf(l, cursor.value), initial, i + 1, added))
  {
    hide Counted, NodesBelow;
    var l := Listed(lists, k);
    ExactlyOnce(lists, clients, 0, k);
    assert ListOk(l, k, clients);
    hide Indexed, ListOk;
    WhereIs(l, |kept|);
  }

  lemma WhereIs(l: seq<Entry>, i: nat)
    requires DistinctNodes(l) && i < |l|
    ensures Where(l, l[i].node) == i
  {
    hide Where;
  }

  lemma ListedClient(l: seq<Entry>, i: nat)
    requires i < |l|
    ensures l[i].client in Ids(l)
  {
    assert Ids(l)[i] == l[i].client;
  }

  /** A client that stays is kept; one that is woken leaves, and may come back at the end. */
  lemma PassStep(l: seq<Entry>, after: seq<Entry>, initial: seq<Entry>, i: nat, kept: seq<Entry>, added: seq<Entry>)
      returns (kept1: seq<Entry>, added1: seq<Entry>)
    requires i < |initial| && l == kept + initial[i..] + added && DistinctClients(l)
    requires after == l || Drop(l, initial[i].client) <= after
    ensures after == kept1 + initial[i + 1..] + added1 && added <= added1
  {
    hide Drop, DistinctClients;
    if after == l {
      kept1, added1 := kept + [initial[i]], added;
    } else {
      assert l[|kept|] == initial[i];
      DropAt(l, |kept|);
      var d := Drop(l, initial[i].client);
      assert d == kept + initial[i + 1..] + added;
      kept1, added1 := kept, added + after[|d|..];
    }
  }

  lemma {:induction false} DropAt(l: seq<Entry>, i: nat)
    requires DistinctClients(l) && i < |l|
    ensures Drop(l, l[i].client) == l[..i] + l[i + 1..]
    decreases |l|
  {
    var n := |l| - 1;
    if i == n {
      DropAbsent(l[..n], l[n].client);
    } else {
      DropAt(l[..n], i);
    }
  }

  lemma TakeId(initial: seq<Entry>, i: nat)
    requires i < |initial|
    ensures Ids(initial[..i + 1]) == Ids(initial[..i]) + [initial[i].client]
  {
  }

  lemma ReadyIsListed(ready: set<Key>, list: seq<Key>, k: Key)
    requires ReadyOk(ready, list)
    ensures k in ready <==> k in list
  {
  }

  lemma StillListed(pending: seq<Key>, before: seq<Key>, after: seq<Key>)
    requires before <= after
    ensures forall k :: k in pending + before ==> k in pending + after
  {
    assert after == before + after[|before|..];
  }

  lemma KeysMeanBlocked(clients: Clients, c: nat, k: Key)
    requires ClientsOk(clients) && c in clients && k in clients[c].keys
    ensures clients[c].blocked && OnKeys(clients[c].btype)
  {
    assert ClientOk(clients[c]);
  }

  lemma FewerKeys(clients: Clients, c: nat, keys: map<Key, nat>, byType: map<BlockType, int>, unblocked: seq<nat>)
    requires c in clients && clients[c].blocked && OnKeys(clients[c].btype)
    requires ClientsOk(clients) && TypesOk(clients, byType) && QueueOk(clients, unblocked)
    ensures var t := clients[c := clients[c].(keys := keys)];
            ClientsOk(t) && TypesOk(t, byType) && QueueOk(t, unblocked)
  {
    hide TypesOk, QueueOk;
    TypesFrame(clients, byType, c, clients[c].(keys := keys));
    QueueFrame(clients, unblocked, c, clients[c].(keys := keys));
  }

  lemma NotPending(clients: Clients, c: nat, byType: map<BlockType, int>, unblocked: seq<nat>)
    requires c in clients && ClientsOk(clients) && TypesOk(clients, byType) && QueueOk(clients, unblocked)
    ensures var t := clients[c := clients[c].(pending := false)];
            ClientsOk(t) && TypesOk(t, byType) && QueueOk(t, unblocked)
  {
    hide TypesOk, QueueOk;
    TypesFrame(clients, byType, c, clients[c].(pending := false));
    QueueFrame(clients, unblocked, c, clients[c].(pending := false));
  }

  lemma {:induction false} DropTwice(l: seq<Entry>, c: nat)
    ensures Drop(Drop(l, c), c) == Drop(l, c)
  {
    DropContents(l, c);
    forall i | 0 <= i < |Drop(l, c)|
      ensures Drop(l, c)[i].client != c
    {
      assert Drop(l, c)[i] in Drop(l, c);
    }
    DropAbsent(Drop(l, c), c);
  }

  lemma DropTwiceAll(lists: Lists, c: nat)
    ensures forall x: Key :: Drop(Drop(Listed(lists, x), c), c) == Drop(Listed(lists, x), c)
  {
    hide Drop;
    forall x: Key
      ensures Drop(Drop(Listed(lists, x), c), c) == Drop(Listed(lists, x), c)
    {
      DropTwice(Listed(lists, x), c);
    }
  }

  lemma RanAgainFrom(c: Client, again: Option<Block>, x: Client, y: Client)
    requires RanAgain(c, again, x) && x.queued == y.queued
    ensures RanAgain(c, again, y)
  {
  }

  lemma NothingAppended(lists: Lists)
    ensures forall x: Key :: Ids(Listed(lists, x)) == Ids(Listed(lists, x)) + []
  {
  }

  /** Some client waits for the key to hold (or, if deleted, to lose) something of the type. */
  ghost predicate Awaited(lists: Lists, clients: Clients, k: Key, t: BlockType, deleted: bool) {
    && t != BNone
    && (exists c ::
          c in Ids(Listed(lists, k)) && c in clients && (clients[c].btype == t || clients[c].btype == BModule))
    && (deleted ==> exists c :: c in Ids(Listed(lists, k)) && c in Nokey(clients))
  }

  lemma AwaitedFound(lists: Lists, counts: map<Key, nat>, clients: Clients, byType: map<BlockType, int>, n: nat, k: Key,
                     t: BlockType, deleted: bool)
    requires IndexOk(lists, counts, clients, n) && ClientsOk(clients) && TypesOk(clients, byType)
    ensures k in counts ==> k in lists
    ensures Awaited(lists, clients, k, t, deleted) ==>
              && t != BNone && t in byType && BModule in byType && (byType[t] != 0 || byType[BModule] != 0)
              && (deleted ==> k in counts) && k in lists
  {
    hide NokeyCount, ListOk, Nokey;
    var l := Listed(lists, k);
    NokeyCountEmpty(Nokey(clients));
    assert Count(counts, k) == NokeyCount(l, Nokey(clients));
    if Awaited(lists, clients, k, t, deleted) {
      var c :| c in Ids(l) && c in clients && (clients[c].btype == t || clients[c].btype == BModule);
      ListedIsBlocked(lists, clients, k, c);
      assert byType[clients[c].btype] == |BlockedAs(clients, clients[c].btype)|;
      assert c in BlockedAs(clients, clients[c].btype);
      if deleted {
        var x :| x in Ids(l) && x in Nokey(clients);
        var i :| 0 <= i < |l| && Ids(l)[i] == x;
        NokeyCountPositive(l, Nokey(clients), i);
      }
    }
  }

  lemma IndexedOf(lists: Lists, counts: map<Key, nat>, clients: Clients, n: nat)
    requires IndexOk(lists, counts, clients, n)
    ensures Indexed(lists, clients)
  {
  }

  lemma ListedIsBlocked(lists: Lists, clients: Clients, k: Key, c: nat)
    requires Indexed(lists, clients) && ClientsOk(clients) && c in Ids(Listed(lists, k))
    ensures c in clients && k in clients[c].keys && clients[c].blocked && OnKeys(clients[c].btype)
  {
    assert ListOk(Listed(lists, k), k, clients);
    var i :| 0 <= i < |Listed(lists, k)| && Ids(Listed(lists, k))[i] == c;
    assert ClientOk(clients[c]);
  }

  lemma {:induction false} NokeyCountPositive(l: seq<Entry>, nokey: set<nat>, i: nat)
    requires i < |l| && l[i].client in nokey
    ensures NokeyCount(l, nokey) > 0
    decreases |l|
  {
    if i < |l| - 1 {
      NokeyCountPositive(l[..|l| - 1], nokey, i);
    }
  }

  lemma ReadyMore(ready: set<Key>, pending: seq<Key>, list: seq<Key>, k: Key)
    requires ReadyOk(ready, pending + list) && k !in ready
    ensures ReadyOk(ready + {k}, pending + (list + [k]))
  {
    assert pending + (list + [k]) == pending + list + [k];
    assert k !in pending + list;
  }

  lemma QueuedOk(clients: Clients, unblocked: seq<nat>, c: nat, byType: map<BlockType, int>)
    requires c in clients && ClientsOk(clients) && TypesOk(clients, byType) && QueueOk(clients, unblocked)
             && !clients[c].queued
    ensures var t := clients[c := clients[c].(queued := true)];
            ClientsOk(t) && TypesOk(t, byType) && QueueOk(t, unblocked + [c])
  {
    hide TypesOk;
    TypesFrame(clients, byType, c, clients[c].(queued := true));
    assert c !in unblocked;
  }

  lemma NoKeysUnlessOnKeys(clients: Clients, c: nat)
    requires ClientsOk(clients) && c in clients
    ensures OnKeys(clients[c].btype) || (clients[c].keys == map[] && !clients[c].nokey)
  {
    assert ClientOk(clients[c]);
  }

  lemma WithKeysIs(clients: Clients, c: nat, keys: map<Key, nat>)
    requires c in clients
    ensures WithKeys(clients, c, keys) == clients[c := clients[c].(keys := keys)]
  {
  }

  lemma UnblockedOk(clients: Clients, c: nat, x: Client, byType: map<BlockType, int>, unblocked: seq<nat>)
    requires c in clients && ClientsOk(clients) && TypesOk(clients, byType) && QueueOk(clients, unblocked)
    requires !x.blocked && clients[c].blocked && x.keys == map[] && !x.nokey && x.queued == clients[c].queued
    ensures ClientsOk(clients[c := x]) && QueueOk(clients[c := x], unblocked)
    ensures var t := clients[c].btype; t in byType && TypesOk(clients[c := x], byType[t := byType[t] - 1])
  {
    hide TypesOk, QueueOk;
    var t := clients[c].btype;
    BlockTypeKnown(clients, byType, t);
    TypesAfter(clients, byType, c, x, t, byType[t := byType[t] - 1]);
    QueueFrame(clients, unblocked, c, x);
  }

  lemma NoKeysNoMatter(lists: Lists, counts: map<Key, nat>, clients: Clients, n: nat, c: nat, x: Client)
    requires IndexOk(lists, counts, clients, n) && c in clients && clients[c].keys == map[] && x.keys == map[]
    ensures IndexOk(lists, counts, clients[c := x], n)
  {
    hide IndexOk;
    IndexOkFrame(lists, counts, clients, clients[c := x], n);
  }

  lemma InTake(keys: seq<Key>, j: nat)
    requires j < |keys|
    ensures forall k :: k in keys[..j + 1] <==> k in keys[..j] || k == keys[j]
  {
    assert keys[..j + 1] == keys[..j] + [keys[j]];
  }

  lemma UnblockedIsEmpty(clients: Clients, c: nat)
    requires ClientsOk(clients) && c in clients && !clients[c].blocked
    ensures clients[c].keys == map[] && !clients[c].nokey
  {
    assert ClientOk(clients[c]);
  }

  lemma BlockTypeKnown(clients: Clients, byType: map<BlockType, int>, t: BlockType)
    requires TypesOk(clients, byType)
    ensures t in byType && (byType[t] == 0 <==> BlockedAs(clients, t) == {})
  {
  }

  /** A client without keys counts nowhere. */
  lemma ChangeNokey(lists: Lists, counts: map<Key, nat>, clients: Clients, n: nat, c: nat, nokey: bool)
    requires IndexOk(lists, counts, clients, n) && c in clients && clients[c].keys == map[]
    ensures IndexOk(lists, counts, WithNokey(clients, c, nokey), n)
  {
    hide IndexOk;
    IndexOkFrame(lists, counts, clients, WithNokey(clients, c, nokey), n);
  }

  lemma IndexOkSame(lists: Lists, counts: map<Key, nat>, clients: Clients, c: nat, x: Client, n: nat)
    requires IndexOk(lists, counts, clients, n) && c in clients && x.keys == clients[c].keys
             && x.nokey == clients[c].nokey
    ensures IndexOk(lists, counts, clients[c := x], n)
  {
    hide IndexOk;
    IndexOkFrame(lists, counts, clients, clients[c := x], n);
  }

  lemma WithNokeyIs(clients: Clients, keys: map<Key, nat>, c: nat, nokey: bool)
    requires c in clients
    ensures c in WithKeys(clients, c, keys)
    ensures WithNokey(WithKeys(clients, c, keys), c, nokey) == clients[c := clients[c].(keys := keys, nokey := nokey)]
  {
  }

  /** A client that was not blocked is blocked on keys. */
  lemma BlockedOk(clients: Clients, c: nat, x: Client, byType: map<BlockType, int>, unblocked: seq<nat>)
    requires c in clients && ClientsOk(clients) && TypesOk(clients, byType) && QueueOk(clients, unblocked)
    requires x.blocked && !clients[c].blocked && OnKeys(x.btype) && x.queued == clients[c].queued
    ensures ClientsOk(clients[c := x]) && QueueOk(clients[c := x], unblocked)
    ensures x.btype in byType && TypesOk(clients[c := x], byType[x.btype := byType[x.btype] + 1])
  {
    hide TypesOk, QueueOk;
    BlockTypeKnown(clients, byType, x.btype);
    TypesAfter(clients, byType, c, x, x.btype, byType[x.btype := byType[x.btype] + 1]);
    QueueFrame(clients, unblocked, c, x);
  }

  function WithNokey(clients: Clients, c: nat, nokey: bool): Clients
    requires c in clients
  {
    clients[c := clients[c].(nokey := nokey)]
  }

  lemma WaitingAdded(lists: Lists, k: Key, e: Entry)
    ensures forall x: Key ::
              Ids(Listed(Added(lists, k, e), x)) == Ids(Listed(lists, x)) + if x == k then [e.client] else []
    ensures forall x: Key :: Listed(lists, x) <= Listed(Added(lists, k, e), x)
  {
    hide Added;
    forall x: Key
      ensures Ids(Listed(Added(lists, k, e), x)) == Ids(Listed(lists, x)) + if x == k then [e.client] else []
      ensures Listed(lists, x) <= Listed(Added(lists, k, e), x)
    {
      ListedAdded(lists, k, e, x);
    }
  }

  lemma WithBoth(clients: Clients, c: nat, keys: map<Key, nat>, nokey: bool)
    requires c in clients
    ensures c in WithKeys(clients, c, keys) && c in WithNokey(clients, c, nokey)
    ensures WithNokey(clients, c, nokey)[c] == clients[c].(nokey := nokey)
    ensures WithKeys(WithNokey(clients, c, nokey), c, keys) == WithNokey(WithKeys(clients, c, keys), c, nokey)
  {
  }

  lemma AddedIs(lists: Lists, k: Key, e: Entry)
    ensures Added(lists, k, e) == lists[k := (if k in lists then lists[k] else []) + [e]]
  {
  }

  lemma WithKeysSame(clients: Clients, c: nat)
    requires c in clients
    ensures WithKeys(clients, c, clients[c].keys) == clients
  {
  }

  lemma WithKeysTwice(clients: Clients, c: nat, keys: map<Key, nat>, again: map<Key, nat>)
    requires c in clients
    ensures c in WithKeys(clients, c, keys)
    ensures WithKeys(clients, c, keys)[c] == clients[c].(keys := keys)
    ensures WithKeys(WithKeys(clients, c, keys), c, again) == WithKeys(clients, c, again)
  {
  }

  lemma ReleasedIs(lists: Lists, k: Key, c: nat)
    ensures Released(lists, k, c)
            == var l := Drop(Listed(lists, k), c); if l == [] then lists[k := l] - {k} else lists[k := l]
  {
    hide Drop;
    var l := Drop(Listed(lists, k), c);
    assert lists[k := l] - {k} == lists - {k};
  }

  lemma RestrictHas(keys: map<Key, nat>, todo: set<Key>, k: Key)
    requires k in todo && k in keys
    ensures k in Restrict(keys, todo) && Restrict(keys, todo)[k] == keys[k]
    ensures Restrict(keys, todo) - {k} == Restrict(keys, todo - {k})
  {
  }

  lemma ListedReleasedAll(lists: Lists, k: Key, c: nat)
    ensures forall other: Key :: Listed(Released(lists, k, c), other)
                                 == if other == k then Drop(Listed(lists, k), c) else Listed(lists, other)
  {
    hide Released, Drop;
    forall other: Key
      ensures Listed(Released(lists, k, c), other)
              == if other == k then Drop(Listed(lists, k), c) else Listed(lists, other)
    {
      ListedReleased(lists, k, c, other);
    }
  }

  lemma NotListedAnywhere(lists: Lists, counts: map<Key, nat>, clients: Clients, n: nat, c: nat)
    requires IndexOk(lists, counts, clients, n) && c in clients
    ensures forall k: Key :: k !in clients[c].keys ==> Drop(Listed(lists, k), c) == Listed(lists, k)
  {
    hide Drop, Counted, NodesBelow, Indexed;
    forall k: Key | k !in clients[c].keys
      ensures Drop(Listed(lists, k), c) == Listed(lists, k)
    {
      NotListed(lists, clients, c, k);
    }
  }
}
