/** The index of blocked clients, as values: for each key the list of clients blocked on it, for
    each client the keys it is blocked on with its place in each list, and for each key the
    number of its clients that must wake up when the key goes away.
  */
module BlockedIndex {

  /** A key of one of the databases. */
  datatype Key = Key(db: nat, name: string)

  /** A list node: its address and the client in it. */
  datatype Entry = Entry(node: nat, client: nat)

  datatype BlockType = BNone | BList | BZset | BStream | BModule | BOther

  /** The blocking state of a client; `queued` is CLIENT_UNBLOCKED. */
  datatype Client = Client(blocked: bool, btype: BlockType, keys: map<Key, nat>, nokey: bool, pending: bool,
                           queued: bool)

  type Lists = map<Key, seq<Entry>>
  type Clients = map<nat, Client>

  function Listed(lists: Lists, k: Key): seq<Entry> {
    if k in lists then lists[k] else []
  }

  function Ids(l: seq<Entry>): (r: seq<nat>)
    ensures |r| == |l| && forall i :: 0 <= i < |l| ==> r[i] == l[i].client
  {
    seq(|l|, i requires 0 <= i < |l| => l[i].client)
  }

  /** The list without a client. */
  function Drop(l: seq<Entry>, c: nat): (r: seq<Entry>)
    ensures |r| <= |l|
  {
    if l == [] then []
    else if l[|l| - 1].client == c then Drop(l[..|l| - 1], c)
    else Drop(l[..|l| - 1], c) + [l[|l| - 1]]
  }

  /** listUnlinkNode: the list without the node. */
  function Unlink(l: seq<Entry>, node: nat): (r: seq<Entry>)
    ensures |r| <= |l|
  {
    if l == [] then []
    else if l[|l| - 1].node == node then l[..|l| - 1]
    else Unlink(l[..|l| - 1], node) + [l[|l| - 1]]
  }

  predicate DistinctNodes(l: seq<Entry>) {
    forall i, j :: 0 <= i < j < |l| ==> l[i].node != l[j].node
  }

  predicate DistinctClients(l: seq<Entry>) {
    forall i, j :: 0 <= i < j < |l| ==> l[i].client != l[j].client
  }

  function Keys(clients: Clients, c: nat): map<Key, nat> {
    if c in clients then clients[c].keys else map[]
  }

  /** Everything in a key's list is in its client's dictionary, at the node it names. */
  ghost predicate ListOk(l: seq<Entry>, k: Key, clients: Clients) {
    && DistinctNodes(l)
    && forall i :: 0 <= i < |l| ==> k in Keys(clients, l[i].client) && Keys(clients, l[i].client)[k] == l[i].node
  }

  /** The two sides of the index agree. */
  ghost predicate Indexed(lists: Lists, clients: Clients) {
    && (forall k :: k in lists ==> lists[k] != [])
    && (forall k: Key :: ListOk(Listed(lists, k), k, clients))
    && (forall c, k :: k in Keys(clients, c) ==> Entry(Keys(clients, c)[k], c) in Listed(lists, k))
  }

  function Nokey(clients: Clients): set<nat> {
    set c | c in clients && clients[c].nokey
  }

  /** How many clients of a list must wake up when the key goes away. */
  function NokeyCount(l: seq<Entry>, nokey: set<nat>): nat {
    if l == [] then 0 else NokeyCount(l[..|l| - 1], nokey) + if l[|l| - 1].client in nokey then 1 else 0
  }

  function Count(counts: map<Key, nat>, k: Key): nat {
    if k in counts then counts[k] else 0
  }

  ghost predicate Counted(lists: Lists, counts: map<Key, nat>, nokey: set<nat>) {
    && (forall k :: k in counts ==> counts[k] > 0)
    && (forall k: Key :: Count(counts, k) == NokeyCount(Listed(lists, k), nokey))
  }

  // ----- what the index means -----

  /** A client is in a key's list exactly once if and only if the key is in the client's
      dictionary, and then the dictionary names that very node. */
  lemma ExactlyOnce(lists: Lists, clients: Clients, c: nat, k: Key)
    requires Indexed(lists, clients)
    ensures DistinctClients(Listed(lists, k))
    ensures k in Keys(clients, c) <==> exists i :: 0 <= i < |Listed(lists, k)| && Listed(lists, k)[i].client == c
    ensures forall i :: 0 <= i < |Listed(lists, k)| && Listed(lists, k)[i].client == c ==>
              k in Keys(clients, c) && Keys(clients, c)[k] == Listed(lists, k)[i].node
  {
    var l := Listed(lists, k);
    assert ListOk(l, k, clients);
    if k in Keys(clients, c) {
      var e := Entry(Keys(clients, c)[k], c);
      assert e in l;
      var i :| 0 <= i < |l| && l[i] == e;
      assert l[i].client == c;
    }
  }

  // ----- lists -----

  /** Dropping a client leaves exactly the others. */
  lemma {:induction false} DropContents(l: seq<Entry>, c: nat)
    ensures forall e :: e in Drop(l, c) <==> e in l && e.client != c
    decreases |l|
  {
    if l != [] {
      DropContents(l[..|l| - 1], c);
      assert l == l[..|l| - 1] + [l[|l| - 1]];
    }
  }

  /** Unlinking a client's node drops the client. */
  lemma {:induction false} UnlinkDrops(l: seq<Entry>, i: nat)
    requires DistinctNodes(l) && DistinctClients(l) && i < |l|
    ensures Unlink(l, l[i].node) == Drop(l, l[i].client)
    decreases |l|
  {
    hide DistinctNodes, DistinctClients;
    var n := |l| - 1;
    DistinctTake(l, i);
    if i < n {
      UnlinkDrops(l[..n], i);
    } else {
      DropAbsent(l[..n], l[i].client);
    }
  }

  lemma DistinctTake(l: seq<Entry>, i: nat)
    requires DistinctNodes(l) && DistinctClients(l) && i < |l|
    ensures var n := |l| - 1;
            && DistinctNodes(l[..n]) && DistinctClients(l[..n])
            && (i < n ==> l[i].node != l[n].node && l[i].client != l[n].client)
            && forall j :: 0 <= j < n ==> l[..n][j].client != l[n].client
  {
  }

  lemma {:induction false} DropAbsent(l: seq<Entry>, c: nat)
    requires forall i :: 0 <= i < |l| ==> l[i].client != c
    ensures Drop(l, c) == l
  {
    if l != [] {
      DropAbsent(l[..|l| - 1], c);
      assert l == l[..|l| - 1] + [l[|l| - 1]];
    }
  }

  lemma {:induction false} DropDistinct(l: seq<Entry>, c: nat)
    requires DistinctNodes(l)
    ensures DistinctNodes(Drop(l, c))
    decreases |l|
  {
    if l != [] {
      var n := |l| - 1;
      DropDistinct(l[..n], c);
      var d := Drop(l[..n], c);
      DropContents(l[..n], c);
      forall i | 0 <= i < |d|
        ensures d[i].node != l[n].node
      {
        assert d[i] in l[..n];
      }
    }
  }

  lemma NokeyCountAppend(l: seq<Entry>, e: Entry, nokey: set<nat>)
    ensures NokeyCount(l + [e], nokey) == NokeyCount(l, nokey) + if e.client in nokey then 1 else 0
  {
    assert (l + [e])[..|l|] == l;
  }

  /** Dropping a client takes one off the count if it was counted. */
  lemma {:induction false} NokeyCountDrop(l: seq<Entry>, i: nat, nokey: set<nat>)
    requires DistinctClients(l) && i < |l|
    ensures NokeyCount(Drop(l, l[i].client), nokey) == NokeyCount(l, nokey) - if l[i].client in nokey then 1 else 0
    decreases |l|
  {
    var n, c := |l| - 1, l[i].client;
    if i == n {
      DropAbsent(l[..n], c);
    } else {
      NokeyCountDrop(l[..n], i, nokey);
      NokeyCountAppend(Drop(l[..n], c), l[n], nokey);
    }
  }

  /** The count depends only on which of the list's own clients are counted. */
  lemma {:induction false} NokeyCountFrame(l: seq<Entry>, a: set<nat>, b: set<nat>)
    requires forall i :: 0 <= i < |l| ==> (l[i].client in a <==> l[i].client in b)
    ensures NokeyCount(l, a) == NokeyCount(l, b)
    decreases |l|
  {
    if l != [] {
      NokeyCountFrame(l[..|l| - 1], a, b);
    }
  }

  // ----- blocking and releasing one key -----

  function Added(lists: Lists, k: Key, e: Entry): Lists {
    lists[k := Listed(lists, k) + [e]]
  }

  function Released(lists: Lists, k: Key, c: nat): Lists {
    var l := Drop(Listed(lists, k), c);
    if l == [] then lists - {k} else lists[k := l]
  }

  lemma ListedAdded(lists: Lists, k: Key, e: Entry, other: Key)
    ensures Listed(Added(lists, k, e), other) == Listed(lists, other) + if other == k then [e] else []
  {
  }

  lemma ListedReleased(lists: Lists, k: Key, c: nat, other: Key)
    ensures Listed(Released(lists, k, c), other)
            == if other == k then Drop(Listed(lists, k), c) else Listed(lists, other)
  {
  }

  function WithKeys(clients: Clients, c: nat, keys: map<Key, nat>): Clients
    requires c in clients
  {
    clients[c := clients[c].(keys := keys)]
  }

  lemma AddKeeps(lists: Lists, clients: Clients, k: Key, e: Entry)
    requires Indexed(lists, clients) && e.client in clients && k !in clients[e.client].keys
    requires forall i :: 0 <= i < |Listed(lists, k)| ==> Listed(lists, k)[i].node != e.node
    ensures Indexed(Added(lists, k, e), WithKeys(clients, e.client, clients[e.client].keys[k := e.node]))
  {
    var c := e.client;
    var t, after := Added(lists, k, e), WithKeys(clients, c, clients[c].keys[k := e.node]);
    hide Added, ListOk;
    assert forall x, other :: other in Keys(clients, x) ==>
           other in Keys(after, x) && Keys(after, x)[other] == Keys(clients, x)[other];
    forall other: Key
      ensures ListOk(Listed(t, other), other, after)
    {
      ListedAdded(lists, k, e, other);
      ListOkGrows(Listed(lists, other), other, clients, after);
      if other == k {
        ListOkAdd(Listed(lists, k), k, after, e);
      }
    }
    forall x, other | other in Keys(after, x)
      ensures Entry(Keys(after, x)[other], x) in Listed(t, other)
    {
      ListedAdded(lists, k, e, other);
    }
    AddedNotEmpty(lists, k, e);
  }

  lemma AddedNotEmpty(lists: Lists, k: Key, e: Entry)
    ensures forall other :: other in Added(lists, k, e) && (other in lists ==> lists[other] != []) ==>
            Added(lists, k, e)[other] != []
  {
  }

  lemma ListOkGrows(l: seq<Entry>, k: Key, clients: Clients, after: Clients)
    requires ListOk(l, k, clients)
    requires forall x, other :: other in Keys(clients, x) ==>
             other in Keys(after, x) && Keys(after, x)[other] == Keys(clients, x)[other]
    ensures ListOk(l, k, after)
  {
  }

  lemma ListOkAdd(l: seq<Entry>, k: Key, clients: Clients, e: Entry)
    requires ListOk(l, k, clients) && k in Keys(clients, e.client) && Keys(clients, e.client)[k] == e.node
    requires forall i :: 0 <= i < |l| ==> l[i].node != e.node
    ensures ListOk(l + [e], k, clients)
  {
  }

  lemma ReleaseKeeps(lists: Lists, clients: Clients, k: Key, c: nat)
    requires Indexed(lists, clients) && c in clients && k in clients[c].keys
    ensures Indexed(Released(lists, k, c), WithKeys(clients, c, clients[c].keys - {k}))
  {
    var t, after := Released(lists, k, c), WithKeys(clients, c, clients[c].keys - {k});
    hide Released, ListOk, Drop;
    forall other: Key
      ensures ListOk(Listed(t, other), other, after)
    {
      ListedReleased(lists, k, c, other);
      assert ListOk(Listed(lists, other), other, clients);
      if other == k {
        ListOkDrop(Listed(lists, k), k, clients, c);
      } else {
        ListOkOther(Listed(lists, other), other, clients, after);
      }
    }
    forall x, other | other in Keys(after, x)
      ensures Entry(Keys(after, x)[other], x) in Listed(t, other)
    {
      ListedReleased(lists, k, c, other);
      assert Entry(Keys(clients, x)[other], x) in Listed(lists, other);
      DropContents(Listed(lists, k), c);
    }
    ReleasedNotEmpty(lists, k, c);
  }

  lemma ReleasedNotEmpty(lists: Lists, k: Key, c: nat)
    ensures forall other :: other in Released(lists, k, c) && (other in lists ==> lists[other] != []) ==>
            Released(lists, k, c)[other] != []
  {
  }

  lemma ListOkDrop(l: seq<Entry>, k: Key, clients: Clients, c: nat)
    requires ListOk(l, k, clients) && c in clients
    ensures ListOk(Drop(l, c), k, WithKeys(clients, c, clients[c].keys - {k}))
  {
    hide Drop;
    DropDistinct(l, c);
    DropContents(l, c);
    forall i | 0 <= i < |Drop(l, c)|
      ensures Drop(l, c)[i] in l && Drop(l, c)[i].client != c
    {
      assert Drop(l, c)[i] in Drop(l, c);
    }
  }

  lemma ListOkOther(l: seq<Entry>, k: Key, clients: Clients, after: Clients)
    requires ListOk(l, k, clients)
    requires forall x :: k in Keys(clients, x) ==> k in Keys(after, x) && Keys(after, x)[k] == Keys(clients, x)[k]
    ensures ListOk(l, k, after)
  {
  }

  /** The index looks at nothing but the dictionaries. */
  lemma IndexedFrame(lists: Lists, clients: Clients, after: Clients)
    requires Indexed(lists, clients) && forall c :: Keys(after, c) == Keys(clients, c)
    ensures Indexed(lists, after)
  {
    hide ListOk, Keys;
    forall k: Key
      ensures ListOk(Listed(lists, k), k, after)
    {
      assert ListOk(Listed(lists, k), k, clients);
      ListOkOther(Listed(lists, k), k, clients, after);
    }
  }

  // ----- the counts -----

  /** Only the count of one key is new. */
  lemma CountedAfter(lists: Lists, counts: map<Key, nat>, t: Lists, after: map<Key, nat>, nokey: set<nat>, k: Key)
    requires Counted(lists, counts, nokey)
    requires forall other :: other != k ==> Listed(t, other) == Listed(lists, other)
    requires forall other :: other != k ==>
             (other in after <==> other in counts) && Count(after, other) == Count(counts, other)
    requires (k in after ==> after[k] > 0) && Count(after, k) == NokeyCount(Listed(t, k), nokey)
    ensures Counted(t, after, nokey)
  {
    hide NokeyCount;
    forall other | other in after
      ensures after[other] > 0
    {
      if other != k {
        assert Count(after, other) == Count(counts, other);
      }
    }
  }

  lemma CountedAdd(lists: Lists, counts: map<Key, nat>, after: map<Key, nat>, nokey: set<nat>, k: Key, e: Entry)
    requires Counted(lists, counts, nokey)
    requires after == if e.client in nokey then counts[k := Count(counts, k) + 1] else counts
    ensures Counted(Added(lists, k, e), after, nokey)
  {
    hide NokeyCount, Added;
    forall other: Key
      ensures other != k ==> Listed(Added(lists, k, e), other) == Listed(lists, other)
    {
      ListedAdded(lists, k, e, other);
    }
    ListedAdded(lists, k, e, k);
    NokeyCountAppend(Listed(lists, k), e, nokey);
    CountedAfter(lists, counts, Added(lists, k, e), after, nokey, k);
  }

  /** The counts when a client leaves the list of a key: `last` if the list is empty now. */
  function Uncounted(counts: map<Key, nat>, k: Key, nokey: bool, last: bool): map<Key, nat> {
    if last then counts - {k}
    else if !nokey || Count(counts, k) == 0 then counts
    else if Count(counts, k) == 1 then counts - {k}
    else counts[k := Count(counts, k) - 1]
  }

  lemma CountedRelease(lists: Lists, counts: map<Key, nat>, nokey: set<nat>, k: Key, i: nat)
    requires Counted(lists, counts, nokey) && i < |Listed(lists, k)| && DistinctClients(Listed(lists, k))
    ensures var c := Listed(lists, k)[i].client;
            && Counted(Released(lists, k, c), Uncounted(counts, k, c in nokey, Drop(Listed(lists, k), c) == []), nokey)
            && (c in nokey ==> k in counts && counts[k] > 0)
  {
    hide NokeyCount, Released, Drop;
    var c := Listed(lists, k)[i].client;
    var after := Uncounted(counts, k, c in nokey, Drop(Listed(lists, k), c) == []);
    forall other: Key
      ensures other != k ==> Listed(Released(lists, k, c), other) == Listed(lists, other)
    {
      ListedReleased(lists, k, c, other);
    }
    ListedReleased(lists, k, c, k);
    NokeyCountDrop(Listed(lists, k), i, nokey);
    NokeyCountEmpty(nokey);
    CountedAfter(lists, counts, Released(lists, k, c), after, nokey, k);
  }

  lemma NokeyCountEmpty(nokey: set<nat>)
    ensures NokeyCount([], nokey) == 0
  {
  }

  lemma CountedFrame(lists: Lists, counts: map<Key, nat>, a: set<nat>, b: set<nat>)
    requires Counted(lists, counts, a)
    requires forall k, i :: 0 <= i < |Listed(lists, k)| ==>
             (Listed(lists, k)[i].client in a <==> Listed(lists, k)[i].client in b)
    ensures Counted(lists, counts, b)
  {
    hide NokeyCount, Listed;
    forall k: Key
      ensures Count(counts, k) == NokeyCount(Listed(lists, k), b)
    {
      NokeyCountFrame(Listed(lists, k), a, b);
    }
  }
}
